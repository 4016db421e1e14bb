/**
 The remaining events of the lease protocol as abstract actions, and the refinement theorem for whole runs.
 */
module LeaseRefinementSteps {
  import opened Results
  import opened Meters
  import opened LeaseManager
  import opened BudgetAuthority
  import opened LeaseProtocol
  import opened LeaseRefinement
  import L = Ledger
  import B = BudgetSpec

  // Columns to actions.

  lemma ColumnsAcquire(rs: set<string>, s: B.State, s': B.State, r: string, a: real)
    requires OnlyColumns(rs, s, s', r) && s'.remaining == s.remaining - a && 0.0 <= a <= s.remaining
    requires !s.crashed[r] && !s'.crashed[r] && s'.granted[r] == s.granted[r] + a
    requires s'.consumed[r] == s.consumed[r] && s'.reserved[r] == s.reserved[r]
    ensures Acts(rs, s, s', r, Some(Action.Acquire))
  {
    B.SameEntry(s.granted, r);
    B.SameEntry(s.consumed, r);
    B.SameEntry(s.reserved, r);
    B.SameEntry(s.crashed, r);
    if a != 0.0 {
      assert B.Acquire(s, s', r, a);
    }
  }

  lemma ColumnsRelease(rs: set<string>, s: B.State, s': B.State, r: string)
    requires OnlyColumns(rs, s, s', r) && s'.remaining == s.remaining + s.granted[r]
    requires !s.crashed[r] && !s'.crashed[r] && s.granted[r] >= 0.0 && s'.granted[r] == 0.0
    requires s'.consumed[r] == s.consumed[r] && s'.reserved[r] == s.reserved[r]
    ensures Acts(rs, s, s', r, Some(Action.Release))
  {
    B.SameEntry(s.granted, r);
    B.SameEntry(s.consumed, r);
    B.SameEntry(s.reserved, r);
    B.SameEntry(s.crashed, r);
    if s.granted[r] != 0.0 {
      assert B.Release(s, s', r);
    }
  }

  lemma ColumnsExpired(s: B.State, s': B.State, r: string)
    requires r in s.granted && r in s.consumed && r in s.reserved && r in s.crashed && s.crashed[r]
    requires s'.granted == s.granted[r := 0.0] && s'.reserved == s.reserved[r := 0.0]
    requires s'.consumed == s.consumed[r := s.consumed[r]] && s'.crashed == s.crashed[r := false]
    requires s'.remaining == s.remaining + s.granted[r] + s.reserved[r]
    ensures B.Expire(s, s', r)
  {
    B.SameEntry(s.consumed, r);
  }

  /** An expiry of a replica that did not crash is a crash and an expiry. */
  lemma ColumnsExpire(rs: set<string>, s: B.State, s': B.State, r: string)
    requires OnlyColumns(rs, s, s', r) && s'.remaining == s.remaining + s.granted[r] + s.reserved[r]
    requires !s'.crashed[r] && s'.granted[r] == 0.0 && s'.reserved[r] == 0.0 && s'.consumed[r] == s.consumed[r]
    ensures Acts(rs, s, s', r, Some(Expire))
  {
    if s.crashed[r] {
      ColumnsExpired(s, s', r);
    } else {
      var t := s.(crashed := s.crashed[r := true]);
      assert t.crashed[r := false] == s.crashed[r := false];
      ColumnsExpired(t, s', r);
    }
  }

  lemma ColumnsCrash(rs: set<string>, s: B.State, s': B.State, r: string)
    requires OnlyColumns(rs, s, s', r) && s'.remaining == s.remaining && !s.crashed[r]
    requires s'.granted[r] == s.granted[r] && s'.consumed[r] == s.consumed[r] && s'.reserved[r] == s.reserved[r]
    ensures Refines(rs, s, s')
  {
    B.SameEntry(s.granted, r);
    B.SameEntry(s.consumed, r);
    B.SameEntry(s.reserved, r);
    B.SameEntry(s.crashed, r);
    if s'.crashed[r] {
      assert B.Crash(s, s', r) && B.StepOf(s, s', r);
    }
  }

  // Events of replicas other than calls.

  lemma SameSums(y: System, y': System, e: string, m: string, q: string)
    requires y'.ledger == y.ledger && y'.committed == y.committed
    requires ReservedOf(y', e, m, q) == ReservedOf(y, e, m, q) && CrashedOf(y', e, q) == CrashedOf(y, e, q)
    ensures SameColumns(y, y', e, m, q)
  {
  }

  lemma NothingReserved(m: string)
    ensures OpenAt(map[], m) == 0.0
  {
    assert Slice(map[], m) == map[];
  }

  /** A replica that installs a new lease held no live one. */
  lemma InstallOwn(rs: set<string>, y: System, e: string, m: string, r: string, lease: Lease)
    requires Inv(y) && Owned(rs, y) && Disciplined(rs, y, e, m, Install(r, lease))
    ensures var y' := AfterInstall(y, r, lease);
      && ReservedOf(y, e, m, r) == 0.0 && ReservedOf(y', e, m, r) == 0.0
      && !CrashedOf(y, e, r) && !CrashedOf(y', e, r)
  {
    NothingReserved(m);
    assert Fresh(y, lease);
  }

  lemma InstallStutters(rs: set<string>, y: System, e: string, m: string, r: string, lease: Lease)
    requires Inv(y) && Owned(rs, y) && Disciplined(rs, y, e, m, Install(r, lease)) && e in y.ledger.store.budgets
    ensures Abstract(rs, AfterInstall(y, r, lease), e, m) == Abstract(rs, y, e, m)
  {
    var y' := AfterInstall(y, r, lease);
    InstallOwn(rs, y, e, m, r, lease);
    forall q | q in rs ensures SameColumns(y, y', e, m, q) {
      if q != r { HoldFrame(y, y', e, m, q); }
      SameSums(y, y', e, m, q);
    }
    AbstractSame(rs, y, y', e, m);
  }

  lemma RefreshColumns(cfg: Config, y: System, e: string, m: string, r: string, lease: Lease, q: string)
    requires Admissible(y, Refresh(r, lease)) && e in y.ledger.store.budgets
    ensures SameColumns(y, Next(cfg, y, Refresh(r, lease)), e, m, q)
  {
    var y' := Next(cfg, y, Refresh(r, lease));
    if q != r { HoldFrame(y, y', e, m, q); }
    SameSums(y, y', e, m, q);
  }

  lemma RefreshStutters(cfg: Config, rs: set<string>, y: System, e: string, m: string, r: string, lease: Lease)
    requires Admissible(y, Refresh(r, lease)) && e in y.ledger.store.budgets
    ensures Abstract(rs, Next(cfg, y, Refresh(r, lease)), e, m) == Abstract(rs, y, e, m)
  {
    var y' := Next(cfg, y, Refresh(r, lease));
    forall q | q in rs { RefreshColumns(cfg, y, e, m, r, lease, q); }
    AbstractSame(rs, y, y', e, m);
  }

  lemma CrashOthers(y: System, e: string, m: string, r: string, q: string)
    requires q != r || !HoldsLive(y, e, r)
    ensures SameColumns(y, y.(crashed := y.crashed + {r}), e, m, q)
  {
    var y' := y.(crashed := y.crashed + {r});
    if q != r { HoldFrame(y, y', e, m, q); }
    SameSums(y, y', e, m, q);
  }

  lemma CrashHolder(rs: set<string>, y: System, e: string, m: string, r: string)
    requires r in rs && Up(y, r) && HoldsLive(y, e, r) && e in y.ledger.store.budgets
    ensures var y' := y.(crashed := y.crashed + {r});
      B.Domains(rs, Abstract(rs, y, e, m)) && Refines(rs, Abstract(rs, y, e, m), Abstract(rs, y', e, m))
  {
    var y' := y.(crashed := y.crashed + {r});
    forall q | q in rs && q != r { CrashOthers(y, e, m, r, q); }
    AbstractFrame(rs, y, y', e, m, r);
    CrashColumns(rs, y, e, m, r);
    ColumnsCrash(rs, Abstract(rs, y, e, m), Abstract(rs, y', e, m), r);
  }

  lemma CrashColumns(rs: set<string>, y: System, e: string, m: string, r: string)
    requires r in rs && Up(y, r) && HoldsLive(y, e, r) && e in y.ledger.store.budgets
    ensures var s, s' := Abstract(rs, y, e, m), Abstract(rs, y.(crashed := y.crashed + {r}), e, m);
      && r in s.granted && r in s.consumed && r in s.reserved && r in s.crashed
      && r in s'.granted && r in s'.consumed && r in s'.reserved && r in s'.crashed
      && s'.remaining == s.remaining && !s.crashed[r]
      && s'.granted[r] == s.granted[r] && s'.consumed[r] == s.consumed[r] && s'.reserved[r] == s.reserved[r]
  {
    AbstractAt(rs, y, e, m, r);
    AbstractAt(rs, y.(crashed := y.crashed + {r}), e, m, r);
  }

  lemma CrashRefines(rs: set<string>, y: System, e: string, m: string, r: string)
    requires Inv(y) && Owned(rs, y) && Up(y, r) && e in y.ledger.store.budgets
    ensures var y' := y.(crashed := y.crashed + {r});
      B.Domains(rs, Abstract(rs, y, e, m)) && Refines(rs, Abstract(rs, y, e, m), Abstract(rs, y', e, m))
  {
    if HoldsLive(y, e, r) {
      CrashHolder(rs, y, e, m, r);
    } else {
      forall q | q in rs { CrashOthers(y, e, m, r, q); }
      AbstractSame(rs, y, y.(crashed := y.crashed + {r}), e, m);
    }
  }

  // Transactions of the authority.

  lemma OwnersStay(cfg: Config, y: System, op: L.Op)
    requires Inv(y) && L.Admissible(y.ledger, op)
    ensures forall key | key in y.committed :: Owner(L.Step(cfg, y.ledger, op), key) == Owner(y.ledger, key)
  {
    forall key | key in y.committed ensures Owner(L.Step(cfg, y.ledger, op), key) == Owner(y.ledger, key) {
      assert EntryOk(y.ledger, key, y.committed[key]);
      OwnerStays(cfg, y.ledger, op, key);
    }
  }

  lemma ConsumedSame(g: L.Ledger, g': L.Ledger, committed: map<Key, Meters>, e: string, m: string, q: string)
    requires forall key | key in committed :: Owner(g', key) == Owner(g, key)
    ensures ConsumedSum(g', committed, e, m, q) == ConsumedSum(g, committed, e, m, q)
  {
    assert ConsumedSlice(g', committed, e, m, q) == ConsumedSlice(g, committed, e, m, q);
  }

  lemma ConsumedStays(cfg: Config, y: System, op: L.Op, e: string, m: string, q: string)
    requires Inv(y) && L.Admissible(y.ledger, op)
    ensures ConsumedOf(AfterAuthority(cfg, y, op), e, m, q) == ConsumedOf(y, e, m, q)
  {
    OwnersStay(cfg, y, op);
    ConsumedSame(y.ledger, L.Step(cfg, y.ledger, op), y.committed, e, m, q);
  }

  /** Holdings change only with the held leases' presence in the ledger. */
  lemma HoldingStays(y: System, y': System, e: string, m: string, q: string)
    requires y'.replicas == y.replicas && y'.crashed == y.crashed
    requires q in y.replicas && y.replicas[q].lease.Some? ==>
      var key := KeyOf(y.replicas[q].lease.value); key in y'.ledger.store.leases <==> key in y.ledger.store.leases
    ensures ReservedOf(y', e, m, q) == ReservedOf(y, e, m, q) && CrashedOf(y', e, q) == CrashedOf(y, e, q)
  {
  }

  lemma SameLeases(cfg: Config, rs: set<string>, y: System, e: string, m: string, op: L.Op)
    requires Inv(y) && L.Admissible(y.ledger, op) && e in y.ledger.store.budgets
    requires var g' := L.Step(cfg, y.ledger, op);
      && g'.store.leases == y.ledger.store.leases && e in g'.store.budgets
      && At(g'.store.budgets[e].remaining, m) == At(y.ledger.store.budgets[e].remaining, m)
    ensures Abstract(rs, AfterAuthority(cfg, y, op), e, m) == Abstract(rs, y, e, m)
  {
    var y' := AfterAuthority(cfg, y, op);
    forall q | q in rs ensures SameColumns(y, y', e, m, q) {
      ConsumedStays(cfg, y, op, e, m, q);
      HoldingStays(y, y', e, m, q);
    }
    AbstractSame(rs, y, y', e, m);
  }

  /** A transaction that grants one replica more out of what remains, and changes nothing else of the execution. */
  ghost predicate Granting(rs: set<string>, y: System, y': System, e: string, m: string, r: string, a: real) {
    && r in rs && e in y.ledger.store.budgets && e in y'.ledger.store.budgets
    && !CrashedOf(y, e, r)
    && 0.0 <= a <= At(y.ledger.store.budgets[e].remaining, m)
    && At(y'.ledger.store.budgets[e].remaining, m) == At(y.ledger.store.budgets[e].remaining, m) - a
    && (forall q | q in rs && q != r :: SameColumns(y, y', e, m, q))
    && GrantedOf(y', e, m, r) == GrantedOf(y, e, m, r) + a
    && ConsumedOf(y', e, m, r) == ConsumedOf(y, e, m, r)
    && ReservedOf(y', e, m, r) == ReservedOf(y, e, m, r)
    && CrashedOf(y', e, r) == CrashedOf(y, e, r)
  }

  lemma GrantingActs(rs: set<string>, y: System, y': System, e: string, m: string, r: string, a: real)
    requires Granting(rs, y, y', e, m, r, a)
    ensures Acts(rs, Abstract(rs, y, e, m), Abstract(rs, y', e, m), r, Some(Action.Acquire))
  {
    AbstractAt(rs, y, e, m, r);
    AbstractAt(rs, y', e, m, r);
    AbstractFrame(rs, y, y', e, m, r);
    ColumnsAcquire(rs, Abstract(rs, y, e, m), Abstract(rs, y', e, m), r, a);
  }

  /** The effect on any replica's columns of putting a lease into the ledger. */
  ghost predicate PutsLease(y: System, y': System, l: Lease) {
    && y'.replicas == y.replicas && y'.crashed == y.crashed && y'.committed == y.committed
    && y'.ledger.store.leases == y.ledger.store.leases[KeyOf(l) := l]
    && (KeyOf(l) in y.ledger.store.leases ==> y.ledger.store.leases[KeyOf(l)].replicaID == l.replicaID)
    && (KeyOf(l) !in y.ledger.store.leases ==> KeyOf(l) !in y.committed)
    && (forall q | q in y.replicas :: KeyAt(y.replicas[q]) == Some(KeyOf(l)) ==> KeyOf(l) in y.ledger.store.leases)
  }

  function Added(y: System, l: Lease, e: string, m: string): real {
    if l.executionID != e then 0.0
    else At(l.granted, m)
         - if KeyOf(l) in y.ledger.store.leases then At(y.ledger.store.leases[KeyOf(l)].granted, m) else 0.0
  }

  lemma PutColumns(y: System, y': System, l: Lease, e: string, m: string, q: string)
    requires PutsLease(y, y', l)
    ensures ReservedOf(y', e, m, q) == ReservedOf(y, e, m, q) && CrashedOf(y', e, q) == CrashedOf(y, e, q)
    ensures GrantedOf(y', e, m, q) == GrantedOf(y, e, m, q) + if q == l.replicaID then Added(y, l, e, m) else 0.0
  {
    if q in y.replicas {
      assert y.replicas[q].lease.Some? ==> KeyAt(y.replicas[q]) == Some(KeyOf(y.replicas[q].lease.value));
    }
    HoldingStays(y, y', e, m, q);
    LeasedPut(y.ledger.store.leases, y.committed, KeyOf(l), l, e, m, q);
  }

  lemma PutGrants(cfg: Config, rs: set<string>, y: System, op: L.Op, l: Lease, e: string, m: string)
    requires Inv(y) && L.Admissible(y.ledger, op) && PutsLease(y, AfterAuthority(cfg, y, op), l)
    requires l.replicaID in rs && e in y.ledger.store.budgets && !CrashedOf(y, e, l.replicaID)
    requires var y' := AfterAuthority(cfg, y, op);
      && e in y'.ledger.store.budgets && 0.0 <= Added(y, l, e, m) <= At(y.ledger.store.budgets[e].remaining, m)
      && At(y'.ledger.store.budgets[e].remaining, m) == At(y.ledger.store.budgets[e].remaining, m) - Added(y, l, e, m)
    ensures Granting(rs, y, AfterAuthority(cfg, y, op), e, m, l.replicaID, Added(y, l, e, m))
  {
    var y' := AfterAuthority(cfg, y, op);
    forall q | q in rs && q != l.replicaID { PutOthers(cfg, y, op, l, e, m, q); }
    PutColumns(y, y', l, e, m, l.replicaID);
    ConsumedStays(cfg, y, op, e, m, l.replicaID);
  }

  lemma PutOthers(cfg: Config, y: System, op: L.Op, l: Lease, e: string, m: string, q: string)
    requires Inv(y) && L.Admissible(y.ledger, op) && PutsLease(y, AfterAuthority(cfg, y, op), l) && q != l.replicaID
    ensures SameColumns(y, AfterAuthority(cfg, y, op), e, m, q)
  {
    PutColumns(y, AfterAuthority(cfg, y, op), l, e, m, q);
    ConsumedStays(cfg, y, op, e, m, q);
  }

  lemma AcquirePuts(cfg: Config, y: System, req: LeaseRequest, leaseID: string, now: Time) returns (l: Lease)
    requires Inv(y) && L.Admissible(y.ledger, L.Acquire(req, leaseID, now)) && AcquireRefusal(y.ledger.store, req).None?
    ensures PutsLease(y, AfterAuthority(cfg, y, L.Acquire(req, leaseID, now)), l)
    ensures l == LeaseFor(cfg, y.ledger.store.budgets[req.executionID], req, leaseID, now)
    ensures KeyOf(l) !in y.ledger.store.leases
  {
    l := AcquiredShape(cfg, y.ledger, req, leaseID, now);
    CommittedKnown(y);
    forall q | q in y.replicas ensures KeyAt(y.replicas[q]) != Some(KeyOf(l)) {
      assert ReplicaOk(y, q);
    }
  }

  lemma NotCrashed(rs: set<string>, y: System, e: string, r: string)
    requires Owned(rs, y) && (NoLive(y, r) || r !in y.crashed)
    ensures !CrashedOf(y, e, r)
  {
  }

  lemma AcquireRemaining(cfg: Config, y: System, req: LeaseRequest, leaseID: string, now: Time, l: Lease, e: string,
      m: string)
    requires Inv(y) && AcquireRefusal(y.ledger.store, req).None? && e in y.ledger.store.budgets
    requires l == LeaseFor(cfg, y.ledger.store.budgets[req.executionID], req, leaseID, now)
    requires KeyOf(l) !in y.ledger.store.leases
    ensures var b' := Acquired(cfg, y.ledger.store, req, leaseID, now).budgets;
      && e in b' && 0.0 <= Added(y, l, e, m) <= At(y.ledger.store.budgets[e].remaining, m)
      && At(b'[e].remaining, m) == At(y.ledger.store.budgets[e].remaining, m) - Added(y, l, e, m)
  {
    assert L.Balanced(y.ledger, e, m);
    L.GrantWithin(cfg, y.ledger.store, req, m);
  }

  /** A transaction is its abstract action of its lease's replica, or invisible. */
  ghost predicate TxnActs(cfg: Config, rs: set<string>, y: System, e: string, m: string, op: L.Op)
    requires e in y.ledger.store.budgets
  {
    var y' := AfterAuthority(cfg, y, op);
    && e in y'.ledger.store.budgets
    && Acts(rs, Abstract(rs, y, e, m), Abstract(rs, y', e, m), TxnReplica(y, op), TxnAction(op))
  }

  lemma TxnRefines(cfg: Config, rs: set<string>, y: System, e: string, m: string, op: L.Op)
    requires e in y.ledger.store.budgets && TxnActs(cfg, rs, y, e, m, op)
    ensures var y' := AfterAuthority(cfg, y, op);
      && e in y'.ledger.store.budgets && B.Domains(rs, Abstract(rs, y, e, m))
      && Refines(rs, Abstract(rs, y, e, m), Abstract(rs, y', e, m))
  {
    ActsRefines(rs, Abstract(rs, y, e, m), Abstract(rs, AfterAuthority(cfg, y, op), e, m),
                TxnReplica(y, op), TxnAction(op));
  }

  lemma AcquireActs(cfg: Config, rs: set<string>, y: System, e: string, m: string, req: LeaseRequest, leaseID: string,
                       now: Time)
    requires Inv(y) && Owned(rs, y) && Disciplined(rs, y, e, m, Authority(L.Acquire(req, leaseID, now)))
    requires e in y.ledger.store.budgets && AcquireRefusal(y.ledger.store, req).None?
    ensures TxnActs(cfg, rs, y, e, m, L.Acquire(req, leaseID, now))
  {
    var l := AcquirePuts(cfg, y, req, leaseID, now);
    NotCrashed(rs, y, e, req.replicaID);
    AcquireRemaining(cfg, y, req, leaseID, now, l, e, m);
    PutGrants(cfg, rs, y, L.Acquire(req, leaseID, now), l, e, m);
    GrantingActs(rs, y, AfterAuthority(cfg, y, L.Acquire(req, leaseID, now)), e, m, l.replicaID, Added(y, l, e, m));
  }

  lemma RenewRemaining(cfg: Config, y: System, l: Lease, hint: Meters, now: Time, e: string, m: string)
    requires Inv(y) && KeyOf(l) in y.ledger.store.leases && y.ledger.store.leases[KeyOf(l)] == l && l.executionID != ""
    requires e in y.ledger.store.budgets
    ensures var (s', reply) := RenewOutcome(cfg, y.ledger.store, Some(l), hint, now);
      && reply.Success? && e in s'.budgets
      && 0.0 <= Added(y, reply.value, e, m) <= At(y.ledger.store.budgets[e].remaining, m)
      && At(s'.budgets[e].remaining, m) == At(y.ledger.store.budgets[e].remaining, m) - Added(y, reply.value, e, m)
  {
    assert L.Balanced(y.ledger, e, m);
    L.TopUpWithin(cfg, y.ledger.store.budgets[l.executionID], hint, m);
  }

  lemma RenewPuts(cfg: Config, y: System, l: Lease, leaseID: string, hint: Meters, now: Time) returns (l': Lease)
    requires Inv(y) && L.FindById(y.ledger.store, leaseID) == Some(l) && l.executionID != ""
    ensures PutsLease(y, AfterAuthority(cfg, y, L.Renew(leaseID, hint, now)), l')
    ensures RenewOutcome(cfg, y.ledger.store, Some(l), hint, now).1 == Success(l') && l'.replicaID == l.replicaID
  {
    l' := L.RenewShape(cfg, y.ledger.store, l, hint, now);
  }

  lemma RenewActs(cfg: Config, rs: set<string>, y: System, e: string, m: string, leaseID: string, hint: Meters,
      now: Time)
    requires Inv(y) && Owned(rs, y) && Disciplined(rs, y, e, m, Authority(L.Renew(leaseID, hint, now)))
    requires e in y.ledger.store.budgets
    requires L.FindById(y.ledger.store, leaseID).Some? && L.FindById(y.ledger.store, leaseID).value.executionID != ""
    ensures TxnActs(cfg, rs, y, e, m, L.Renew(leaseID, hint, now))
  {
    var l := L.FindById(y.ledger.store, leaseID).value;
    var l' := RenewPuts(cfg, y, l, leaseID, hint, now);
    RenewRemaining(cfg, y, l, hint, now, e, m);
    NotCrashed(rs, y, e, l.replicaID);
    PutGrants(cfg, rs, y, L.Renew(leaseID, hint, now), l', e, m);
    GrantingActs(rs, y, AfterAuthority(cfg, y, L.Renew(leaseID, hint, now)), e, m, l'.replicaID, Added(y, l', e, m));
  }

  // Closing.

  lemma CloseOthers(cfg: Config, y: System, op: L.Op, key: Key, e: string, m: string, q: string)
    requires Inv(y) && L.Admissible(y.ledger, op) && key in y.ledger.store.leases
    requires L.Step(cfg, y.ledger, op).store.leases == y.ledger.store.leases - {key}
    requires key.executionID != e || (y.ledger.store.leases[key].replicaID != q
                                      && (q in y.replicas ==> KeyAt(y.replicas[q]) != Some(key)))
    ensures SameColumns(y, AfterAuthority(cfg, y, op), e, m, q)
  {
    ConsumedStays(cfg, y, op, e, m, q);
    CloseColumnsStay(y, AfterAuthority(cfg, y, op), key, e, m, q);
  }

  lemma CloseColumnsStay(y: System, y': System, key: Key, e: string, m: string, q: string)
    requires y'.replicas == y.replicas && y'.crashed == y.crashed && y'.committed == y.committed
    requires key in y.ledger.store.leases && y'.ledger.store.leases == y.ledger.store.leases - {key}
    requires key.executionID != e || (y.ledger.store.leases[key].replicaID != q
                                      && (q in y.replicas ==> KeyAt(y.replicas[q]) != Some(key)))
    requires ConsumedOf(y', e, m, q) == ConsumedOf(y, e, m, q)
    ensures SameColumns(y, y', e, m, q)
  {
    LeasedRemove(y.ledger.store.leases, y.committed, key, e, m, q);
    CloseHolding(y, y', key, e, m, q);
  }

  lemma CloseHolding(y: System, y': System, key: Key, e: string, m: string, q: string)
    requires y'.replicas == y.replicas && y'.crashed == y.crashed
    requires y'.ledger.store.leases == y.ledger.store.leases - {key}
    requires key.executionID != e || (q in y.replicas ==> KeyAt(y.replicas[q]) != Some(key))
    ensures ReservedOf(y', e, m, q) == ReservedOf(y, e, m, q) && CrashedOf(y', e, q) == CrashedOf(y, e, q)
  {
    assert HoldsLive(y', e, q) == HoldsLive(y, e, q);
  }

  /** The owner of a closed lease has nothing leased, reserved or crashed left. */
  lemma CloseOwner(cfg: Config, rs: set<string>, y: System, op: L.Op, key: Key, e: string, m: string)
    requires Inv(y) && Owned(rs, y) && L.Admissible(y.ledger, op)
    requires key in y.ledger.store.leases && key.executionID == e
    requires L.Step(cfg, y.ledger, op).store.leases == y.ledger.store.leases - {key}
    ensures var y', r := AfterAuthority(cfg, y, op), y.ledger.store.leases[key].replicaID;
      && GrantedOf(y', e, m, r) == 0.0 && ReservedOf(y', e, m, r) == 0.0 && !CrashedOf(y', e, r)
      && ConsumedOf(y', e, m, r) == ConsumedOf(y, e, m, r)
      && GrantedOf(y, e, m, r) + ReservedOf(y, e, m, r)
         == At(y.ledger.store.leases[key].granted, m) - CommittedAt(y.committed, key, m)
  {
    var y', r := AfterAuthority(cfg, y, op), y.ledger.store.leases[key].replicaID;
    ConsumedStays(cfg, y, op, e, m, r);
    LeasedOnly(rs, y, key, e, m);
    CloseOwnerHolds(rs, y, y', key, e, r);
  }

  lemma CloseOwnerHolds(rs: set<string>, y: System, y': System, key: Key, e: string, r: string)
    requires Owned(rs, y) && key in y.ledger.store.leases && y.ledger.store.leases[key].replicaID == r
    requires y'.replicas == y.replicas && y'.ledger.store.leases == y.ledger.store.leases - {key}
    ensures !HoldsLive(y', e, r)
  {
  }

  lemma HolderIsOwner(rs: set<string>, y: System, key: Key, q: string)
    requires Owned(rs, y) && key in y.ledger.store.leases && q in y.replicas && KeyAt(y.replicas[q]) == Some(key)
    ensures y.ledger.store.leases[key].replicaID == q
  {
  }

  lemma CloseAllOthers(cfg: Config, rs: set<string>, y: System, op: L.Op, key: Key, e: string, m: string)
    requires Inv(y) && Owned(rs, y) && L.Admissible(y.ledger, op) && key in y.ledger.store.leases
    requires L.Step(cfg, y.ledger, op).store.leases == y.ledger.store.leases - {key}
    ensures forall q | q in rs && (key.executionID != e || q != y.ledger.store.leases[key].replicaID) ::
      SameColumns(y, AfterAuthority(cfg, y, op), e, m, q)
  {
    forall q | q in rs && (key.executionID != e || q != y.ledger.store.leases[key].replicaID)
      ensures SameColumns(y, AfterAuthority(cfg, y, op), e, m, q)
    {
      if key.executionID == e && q in y.replicas && KeyAt(y.replicas[q]) == Some(key) {
        HolderIsOwner(rs, y, key, q);
      }
      CloseOthers(cfg, y, op, key, e, m, q);
    }
  }

  /** Closing a lease of another execution is invisible. */
  lemma CloseElsewhere(cfg: Config, rs: set<string>, y: System, op: L.Op, key: Key, e: string, m: string)
    requires Inv(y) && Owned(rs, y) && L.Admissible(y.ledger, op)
    requires key in y.ledger.store.leases && key.executionID != e
    requires L.Step(cfg, y.ledger, op).store.leases == y.ledger.store.leases - {key}
    requires var b' := L.Step(cfg, y.ledger, op).store.budgets;
      && e in y.ledger.store.budgets && e in b'
      && At(b'[e].remaining, m) == At(y.ledger.store.budgets[e].remaining, m)
    ensures Abstract(rs, AfterAuthority(cfg, y, op), e, m) == Abstract(rs, y, e, m)
  {
    CloseAllOthers(cfg, rs, y, op, key, e, m);
    AbstractSame(rs, y, AfterAuthority(cfg, y, op), e, m);
  }

  /** Closing a lease empties its owner's columns and moves no other. */
  lemma ClosedColumns(cfg: Config, rs: set<string>, y: System, op: L.Op, key: Key, e: string, m: string)
    requires Inv(y) && Owned(rs, y) && L.Admissible(y.ledger, op)
    requires key in y.ledger.store.leases && key.executionID == e
    requires L.Step(cfg, y.ledger, op).store.leases == y.ledger.store.leases - {key}
    requires e in y.ledger.store.budgets && e in L.Step(cfg, y.ledger, op).store.budgets
    ensures var s, s', r := Abstract(rs, y, e, m), Abstract(rs, AfterAuthority(cfg, y, op), e, m),
                            y.ledger.store.leases[key].replicaID;
      && OnlyColumns(rs, s, s', r)
      && s.granted[r] + s.reserved[r] == At(y.ledger.store.leases[key].granted, m) - CommittedAt(y.committed, key, m)
      && !s'.crashed[r] && s'.granted[r] == 0.0 && s'.reserved[r] == 0.0 && s'.consumed[r] == s.consumed[r]
  {
    var y', r := AfterAuthority(cfg, y, op), y.ledger.store.leases[key].replicaID;
    CloseAllOthers(cfg, rs, y, op, key, e, m);
    CloseOwner(cfg, rs, y, op, key, e, m);
    AbstractAt(rs, y, e, m, r);
    AbstractAt(rs, y', e, m, r);
    AbstractFrame(rs, y, y', e, m, r);
  }

  lemma CloseRemains(y: System, l: Lease, consumed: Meters, e: string, m: string)
    requires Inv(y) && KeyOf(l) in y.ledger.store.leases && y.ledger.store.leases[KeyOf(l)] == l
    requires e in y.ledger.store.budgets
    requires l.executionID == e ==> At(L.Charge(l.granted, consumed), m) == CommittedAt(y.committed, KeyOf(l), m)
    ensures var s' := L.Close(y.ledger, l, consumed).store;
      && e in s'.budgets && s'.leases == y.ledger.store.leases - {KeyOf(l)}
      && At(s'.budgets[e].remaining, m) == At(y.ledger.store.budgets[e].remaining, m)
         + if l.executionID == e then At(l.granted, m) - CommittedAt(y.committed, KeyOf(l), m) else 0.0
  {
    CloseRemaining(y.ledger.store, l, consumed, e, m);
    L.CreditAndCharge(l.granted, consumed, m);
  }

  /** A report of what was committed is charged in full. */
  lemma ReportCharged(y: System, l: Lease, consumed: Meters, m: string)
    requires Inv(y) && KeyOf(l) in y.ledger.store.leases && y.ledger.store.leases[KeyOf(l)] == l
    requires At(consumed, m) == CommittedAt(y.committed, KeyOf(l), m)
    ensures At(L.Charge(l.granted, consumed), m) == CommittedAt(y.committed, KeyOf(l), m)
  {
    CommittedWithin(y, KeyOf(l), m);
  }

  lemma ReclaimActs(cfg: Config, rs: set<string>, y: System, e: string, m: string, expired: Lease, now: Time)
    requires Inv(y) && Owned(rs, y) && e in y.ledger.store.budgets
    requires KeyOf(expired) in y.ledger.store.leases && y.ledger.store.leases[KeyOf(expired)].expiresAt <= now
    requires expired.executionID == e ==>
      At(y.ledger.store.leases[KeyOf(expired)].consumed, m) == CommittedAt(y.committed, KeyOf(expired), m)
    ensures TxnActs(cfg, rs, y, e, m, L.Reclaim(expired, now))
  {
    var l := y.ledger.store.leases[KeyOf(expired)];
    if expired.executionID == e {
      ReportCharged(y, l, l.consumed, m);
      ReclaimCharged(cfg, rs, y, e, m, expired, now);
    } else {
      ReclaimElsewhere(cfg, rs, y, e, m, expired, now);
    }
  }

  lemma ReclaimElsewhere(cfg: Config, rs: set<string>, y: System, e: string, m: string, expired: Lease, now: Time)
    requires Inv(y) && Owned(rs, y) && e in y.ledger.store.budgets && expired.executionID != e
    requires KeyOf(expired) in y.ledger.store.leases && y.ledger.store.leases[KeyOf(expired)].expiresAt <= now
    ensures TxnActs(cfg, rs, y, e, m, L.Reclaim(expired, now))
  {
    var op, l := L.Reclaim(expired, now), y.ledger.store.leases[KeyOf(expired)];
    CloseRemains(y, l, l.consumed, e, m);
    CloseElsewhere(cfg, rs, y, op, KeyOf(expired), e, m);
    Invisible(cfg, rs, y, e, m, op);
  }

  lemma Invisible(cfg: Config, rs: set<string>, y: System, e: string, m: string, op: L.Op)
    requires e in y.ledger.store.budgets && e in AfterAuthority(cfg, y, op).ledger.store.budgets
    requires Abstract(rs, AfterAuthority(cfg, y, op), e, m) == Abstract(rs, y, e, m)
    ensures TxnActs(cfg, rs, y, e, m, op)
  {
  }

  /** A reclaim that charges what was committed is the expiry of the lease's owner. */
  lemma ReclaimCharged(cfg: Config, rs: set<string>, y: System, e: string, m: string, expired: Lease, now: Time)
    requires Inv(y) && Owned(rs, y) && e in y.ledger.store.budgets && expired.executionID == e
    requires KeyOf(expired) in y.ledger.store.leases && y.ledger.store.leases[KeyOf(expired)].expiresAt <= now
    requires var l := y.ledger.store.leases[KeyOf(expired)];
      At(L.Charge(l.granted, l.consumed), m) == CommittedAt(y.committed, KeyOf(expired), m)
    ensures TxnActs(cfg, rs, y, e, m, L.Reclaim(expired, now))
  {
    var l := y.ledger.store.leases[KeyOf(expired)];
    CloseRemains(y, l, l.consumed, e, m);
    ReclaimOwn(cfg, rs, y, e, m, L.Reclaim(expired, now), KeyOf(expired));
  }

  lemma ReclaimOwn(cfg: Config, rs: set<string>, y: System, e: string, m: string, op: L.Op, key: Key)
    requires Inv(y) && Owned(rs, y) && L.Admissible(y.ledger, op)
    requires key in y.ledger.store.leases && key.executionID == e && e in y.ledger.store.budgets
    requires L.Step(cfg, y.ledger, op).store.leases == y.ledger.store.leases - {key}
    requires var b' := L.Step(cfg, y.ledger, op).store.budgets;
      && e in b'
      && At(b'[e].remaining, m) == At(y.ledger.store.budgets[e].remaining, m)
           + At(y.ledger.store.leases[key].granted, m) - CommittedAt(y.committed, key, m)
    ensures Acts(rs, Abstract(rs, y, e, m), Abstract(rs, AfterAuthority(cfg, y, op), e, m),
                 y.ledger.store.leases[key].replicaID, Some(Expire))
  {
    var s, s' := Abstract(rs, y, e, m), Abstract(rs, AfterAuthority(cfg, y, op), e, m);
    ClosedColumns(cfg, rs, y, op, key, e, m);
    ColumnsExpire(rs, s, s', y.ledger.store.leases[key].replicaID);
  }

  lemma ReleaseOwnActs(cfg: Config, rs: set<string>, y: System, e: string, m: string, op: L.Op, l: Lease)
    requires Inv(y) && Owned(rs, y) && op.Release? && L.FindById(y.ledger.store, op.leaseID) == Some(l)
    requires e in y.ledger.store.budgets && l.executionID == e && ReleaseDiscipline(y, KeyOf(l), op.consumed, e, m)
    ensures TxnActs(cfg, rs, y, e, m, op)
  {
    ReportCharged(y, l, op.consumed, m);
    CloseRemains(y, l, op.consumed, e, m);
    ReleaseOwn(cfg, rs, y, e, m, op, KeyOf(l));
  }

  lemma ReleaseActs(cfg: Config, rs: set<string>, y: System, e: string, m: string, leaseID: string, consumed: Meters)
    requires Inv(y) && Owned(rs, y) && Disciplined(rs, y, e, m, Authority(L.Release(leaseID, consumed)))
    requires e in y.ledger.store.budgets && L.FindById(y.ledger.store, leaseID).Some?
    ensures TxnActs(cfg, rs, y, e, m, L.Release(leaseID, consumed))
  {
    var op := L.Release(leaseID, consumed);
    var l := L.FindById(y.ledger.store, leaseID).value;
    assert ReleaseDiscipline(y, KeyOf(l), consumed, e, m);
    if l.executionID == e {
      ReleaseOwnActs(cfg, rs, y, e, m, op, l);
    } else {
      CloseRemains(y, l, consumed, e, m);
      CloseElsewhere(cfg, rs, y, op, KeyOf(l), e, m);
    }
  }

  lemma ReleaseOwn(cfg: Config, rs: set<string>, y: System, e: string, m: string, op: L.Op, key: Key)
    requires Inv(y) && Owned(rs, y) && L.Admissible(y.ledger, op) && op.Release?
    requires key in y.ledger.store.leases && key.executionID == e && e in y.ledger.store.budgets
    requires ReleaseDiscipline(y, key, op.consumed, e, m)
    requires L.Step(cfg, y.ledger, op).store.leases == y.ledger.store.leases - {key}
    requires var b' := L.Step(cfg, y.ledger, op).store.budgets;
      && e in b'
      && At(b'[e].remaining, m) == At(y.ledger.store.budgets[e].remaining, m)
           + At(y.ledger.store.leases[key].granted, m) - CommittedAt(y.committed, key, m)
    ensures Acts(rs, Abstract(rs, y, e, m), Abstract(rs, AfterAuthority(cfg, y, op), e, m),
                 y.ledger.store.leases[key].replicaID, Some(Action.Release))
  {
    var s, s' := Abstract(rs, y, e, m), Abstract(rs, AfterAuthority(cfg, y, op), e, m);
    ClosedColumns(cfg, rs, y, op, key, e, m);
    ReleaseGranted(rs, y, e, m, key, op.consumed);
    ColumnsRelease(rs, s, s', y.ledger.store.leases[key].replicaID);
  }

  lemma ReleaseGranted(rs: set<string>, y: System, e: string, m: string, key: Key, consumed: Meters)
    requires Inv(y) && Owned(rs, y) && key in y.ledger.store.leases && key.executionID == e
    requires ReleaseDiscipline(y, key, consumed, e, m) && e in y.ledger.store.budgets
    ensures var r, s := y.ledger.store.leases[key].replicaID, Abstract(rs, y, e, m);
      && r in s.granted && r in s.reserved && r in s.crashed
      && s.reserved[r] == 0.0 && !s.crashed[r] && s.granted[r] >= 0.0
  {
    var r := y.ledger.store.leases[key].replicaID;
    AbstractAt(rs, y, e, m, r);
    NotCrashed(rs, y, e, r);
    NothingReserved(m);
    LeasedOnly(rs, y, key, e, m);
    CommittedWithin(y, key, m);
  }

  // All events, and whole runs.

  lemma AuthorityRefines(cfg: Config, rs: set<string>, y: System, e: string, m: string, op: L.Op)
    requires Inv(y) && Owned(rs, y) && Disciplined(rs, y, e, m, Authority(op)) && e in y.ledger.store.budgets
    ensures TxnActs(cfg, rs, y, e, m, op)
  {
    match op
    case Acquire(req, leaseID, now) =>
      if AcquireRefusal(y.ledger.store, req).None? {
        AcquireActs(cfg, rs, y, e, m, req, leaseID, now);
      } else {
        Unchanged(cfg, rs, y, e, m, op);
      }
    case Renew(leaseID, hint, now) =>
      var found := L.FindById(y.ledger.store, leaseID);
      if found.Some? && found.value.executionID != "" {
        RenewActs(cfg, rs, y, e, m, leaseID, hint, now);
      } else {
        Unchanged(cfg, rs, y, e, m, op);
      }
    case Release(leaseID, consumed) =>
      if L.FindById(y.ledger.store, leaseID).Some? {
        ReleaseActs(cfg, rs, y, e, m, leaseID, consumed);
      } else {
        Unchanged(cfg, rs, y, e, m, op);
      }
    case Reclaim(expired, now) =>
      if KeyOf(expired) in y.ledger.store.leases && y.ledger.store.leases[KeyOf(expired)].expiresAt <= now {
        ReclaimActs(cfg, rs, y, e, m, expired, now);
      } else {
        Unchanged(cfg, rs, y, e, m, op);
      }
    case Create(_, _) => Stutters(cfg, rs, y, e, m, op);
    case Bump(_) => Stutters(cfg, rs, y, e, m, op);
  }

  lemma Unchanged(cfg: Config, rs: set<string>, y: System, e: string, m: string, op: L.Op)
    requires Inv(y) && L.Admissible(y.ledger, op) && e in y.ledger.store.budgets
    requires L.Step(cfg, y.ledger, op) == y.ledger
    ensures TxnActs(cfg, rs, y, e, m, op)
  {
    Stutters(cfg, rs, y, e, m, op);
  }

  lemma Stutters(cfg: Config, rs: set<string>, y: System, e: string, m: string, op: L.Op)
    requires Inv(y) && L.Admissible(y.ledger, op) && e in y.ledger.store.budgets
    requires var g' := L.Step(cfg, y.ledger, op);
      && g'.store.leases == y.ledger.store.leases && e in g'.store.budgets
      && At(g'.store.budgets[e].remaining, m) == At(y.ledger.store.budgets[e].remaining, m)
    ensures TxnActs(cfg, rs, y, e, m, op)
  {
    SameLeases(cfg, rs, y, e, m, op);
  }

  // How far the discipline of reclaims is needed.

  /** All that an abstract state accounts for. */
  ghost function Total(s: B.State): real {
    s.remaining + Sum(s.granted) + Sum(s.reserved) + Sum(s.consumed)
  }

  lemma RefinesKeepsTotal(rs: set<string>, total: real, s: B.State, s': B.State)
    requires B.Inv(rs, total, s) && Refines(rs, s, s')
    ensures Total(s') == Total(s)
  {
    if s' != s {
      if B.Next(rs, s, s') {
        B.StepInv(rs, total, s, s');
      } else {
        var t :| B.Domains(rs, t) && B.Next(rs, s, t) && B.Next(rs, t, s');
        B.StepInv(rs, total, s, t);
        B.StepInv(rs, total, t, s');
      }
    }
  }

  lemma ColumnsTotal(rs: set<string>, s: B.State, s': B.State, r: string)
    requires OnlyColumns(rs, s, s', r) && s'.consumed[r] == s.consumed[r]
    requires s'.granted[r] == 0.0 && s'.reserved[r] == 0.0
    ensures Total(s') == Total(s) + s'.remaining - s.remaining - s.granted[r] - s.reserved[r]
  {
    SumPut(s.granted, r, s'.granted[r]);
    SumPut(s.reserved, r, s'.reserved[r]);
    SumPut(s.consumed, r, s'.consumed[r]);
  }

  /** A reclaim moves the abstract total by what was committed less what is charged. */
  lemma ReclaimMovesTotal(cfg: Config, rs: set<string>, y: System, e: string, m: string, op: L.Op, key: Key)
    requires Inv(y) && Owned(rs, y) && L.Admissible(y.ledger, op) && op.Reclaim? && KeyOf(op.expired) == key
    requires key in y.ledger.store.leases && key.executionID == e && y.ledger.store.leases[key].expiresAt <= op.now
    requires e in y.ledger.store.budgets
    ensures var y', l := AfterAuthority(cfg, y, op), y.ledger.store.leases[key];
      && e in y'.ledger.store.budgets
      && Total(Abstract(rs, y', e, m)) == Total(Abstract(rs, y, e, m))
           + CommittedAt(y.committed, key, m) - At(L.Charge(l.granted, l.consumed), m)
  {
    var y', l := AfterAuthority(cfg, y, op), y.ledger.store.leases[key];
    CloseRemaining(y.ledger.store, l, l.consumed, e, m);
    L.CreditAndCharge(l.granted, l.consumed, m);
    ClosedColumns(cfg, rs, y, op, key, e, m);
    ColumnsTotal(rs, Abstract(rs, y, e, m), Abstract(rs, y', e, m), l.replicaID);
  }

  /**
   A reclaim is abstract actions at all exactly when it charges what was committed under the lease; then it is the
   expiry of its owner.
   */
  lemma ReclaimRefinesIff(cfg: Config, rs: set<string>, total: real, y: System, e: string, m: string, expired: Lease,
      now: Time)
    requires Inv(y) && Owned(rs, y) && e in y.ledger.store.budgets && B.Inv(rs, total, Abstract(rs, y, e, m))
    requires KeyOf(expired) in y.ledger.store.leases && expired.executionID == e
    requires y.ledger.store.leases[KeyOf(expired)].expiresAt <= now
    ensures var y', l := AfterAuthority(cfg, y, L.Reclaim(expired, now)), y.ledger.store.leases[KeyOf(expired)];
      && e in y'.ledger.store.budgets
      && (Refines(rs, Abstract(rs, y, e, m), Abstract(rs, y', e, m)) <==>
            At(L.Charge(l.granted, l.consumed), m) == CommittedAt(y.committed, KeyOf(expired), m))
  {
    var l := y.ledger.store.leases[KeyOf(expired)];
    if At(L.Charge(l.granted, l.consumed), m) == CommittedAt(y.committed, KeyOf(expired), m) {
      ChargedRefines(cfg, rs, y, e, m, expired, now);
    } else {
      UnchargedRefinesNot(cfg, rs, total, y, e, m, expired, now);
    }
  }

  lemma ChargedRefines(cfg: Config, rs: set<string>, y: System, e: string, m: string, expired: Lease, now: Time)
    requires Inv(y) && Owned(rs, y) && e in y.ledger.store.budgets && expired.executionID == e
    requires KeyOf(expired) in y.ledger.store.leases && y.ledger.store.leases[KeyOf(expired)].expiresAt <= now
    requires var l := y.ledger.store.leases[KeyOf(expired)];
      At(L.Charge(l.granted, l.consumed), m) == CommittedAt(y.committed, KeyOf(expired), m)
    ensures var y' := AfterAuthority(cfg, y, L.Reclaim(expired, now));
      e in y'.ledger.store.budgets && Refines(rs, Abstract(rs, y, e, m), Abstract(rs, y', e, m))
  {
    ReclaimCharged(cfg, rs, y, e, m, expired, now);
    TxnRefines(cfg, rs, y, e, m, L.Reclaim(expired, now));
  }

  lemma UnchargedRefinesNot(cfg: Config, rs: set<string>, total: real, y: System, e: string, m: string, expired: Lease,
                            now: Time)
    requires Inv(y) && Owned(rs, y) && e in y.ledger.store.budgets && expired.executionID == e
    requires B.Inv(rs, total, Abstract(rs, y, e, m))
    requires KeyOf(expired) in y.ledger.store.leases && y.ledger.store.leases[KeyOf(expired)].expiresAt <= now
    requires var l := y.ledger.store.leases[KeyOf(expired)];
      At(L.Charge(l.granted, l.consumed), m) != CommittedAt(y.committed, KeyOf(expired), m)
    ensures var y' := AfterAuthority(cfg, y, L.Reclaim(expired, now));
      e in y'.ledger.store.budgets && !Refines(rs, Abstract(rs, y, e, m), Abstract(rs, y', e, m))
  {
    var op := L.Reclaim(expired, now);
    ReclaimMovesTotal(cfg, rs, y, e, m, op, KeyOf(expired));
    TotalMoved(rs, total, Abstract(rs, y, e, m), Abstract(rs, AfterAuthority(cfg, y, op), e, m));
  }

  lemma TotalMoved(rs: set<string>, total: real, s: B.State, s': B.State)
    requires B.Inv(rs, total, s) && Total(s') != Total(s)
    ensures !Refines(rs, s, s')
  {
    if Refines(rs, s, s') {
      RefinesKeepsTotal(rs, total, s, s');
    }
  }

  /** As the stored consumption is always zero, that is exactly when nothing was committed under it. */
  lemma ReclaimRefinesIffUnspent(cfg: Config, rs: set<string>, total: real, y: System, e: string, m: string,
      expired: Lease, now: Time)
    requires Inv(y) && Owned(rs, y) && e in y.ledger.store.budgets && B.Inv(rs, total, Abstract(rs, y, e, m))
    requires KeyOf(expired) in y.ledger.store.leases && expired.executionID == e
    requires y.ledger.store.leases[KeyOf(expired)].expiresAt <= now && L.NothingConsumed(y.ledger)
    ensures var y' := AfterAuthority(cfg, y, L.Reclaim(expired, now));
      && e in y'.ledger.store.budgets
      && (Refines(rs, Abstract(rs, y, e, m), Abstract(rs, y', e, m)) <==>
            CommittedAt(y.committed, KeyOf(expired), m) == 0.0)
  {
    ReclaimRefinesIff(cfg, rs, total, y, e, m, expired, now);
    ChargesNothing(y, y.ledger.store.leases[KeyOf(expired)], m);
  }

  lemma ChargesNothing(y: System, l: Lease, m: string)
    requires Inv(y) && L.NothingConsumed(y.ledger)
    requires KeyOf(l) in y.ledger.store.leases && y.ledger.store.leases[KeyOf(l)] == l
    ensures At(L.Charge(l.granted, l.consumed), m) == 0.0
  {
    assert At(y.ledger.store.leases[KeyOf(l)].consumed, m) == 0.0;
    CommittedWithin(y, KeyOf(l), m);
  }

  /** Every disciplined event is no, one or two actions of the abstract protocol. */
  lemma StepRefines(cfg: Config, rs: set<string>, y: System, e: string, m: string, ev: Event)
    requires Inv(y) && Owned(rs, y) && Disciplined(rs, y, e, m, ev) && e in y.ledger.store.budgets
    ensures var y' := Next(cfg, y, ev);
      && e in y'.ledger.store.budgets && B.Domains(rs, Abstract(rs, y, e, m))
      && Refines(rs, Abstract(rs, y, e, m), Abstract(rs, y', e, m))
  {
    match ev
    case Authority(op) =>
      AuthorityRefines(cfg, rs, y, e, m, op);
      TxnRefines(cfg, rs, y, e, m, op);
    case Install(r, lease) => InstallStutters(rs, y, e, m, r, lease);
    case Refresh(r, lease) => RefreshStutters(cfg, rs, y, e, m, r, lease);
    case Local(r, op) =>
      LocalRefines(rs, y, e, m, r, op);
      ActsRefines(rs, Abstract(rs, y, e, m), Abstract(rs, AfterLocal(y, r, op), e, m), r, CallAction(op));
    case Crash(r) => CrashRefines(rs, y, e, m, r);
  }

  ghost predicate DisciplinedRun(cfg: Config, rs: set<string>, y: System, e: string, m: string, events: seq<Event>)
    decreases |events|
  {
    || events == []
    || (Disciplined(rs, y, e, m, events[0]) && DisciplinedRun(cfg, rs, Next(cfg, y, events[0]), e, m, events[1..]))
  }

  lemma {:induction false} DisciplinedIsAdmissible(cfg: Config, rs: set<string>, y: System, e: string, m: string,
                                                   events: seq<Event>)
    requires DisciplinedRun(cfg, rs, y, e, m, events)
    ensures AdmissibleRun(cfg, y, events)
    decreases |events|
  {
    if events != [] {
      DisciplinedIsAdmissible(cfg, rs, Next(cfg, y, events[0]), e, m, events[1..]);
    }
  }

  /** A new budget is an initial abstract state with its limit as the total. */
  lemma CreateIsInit(cfg: Config, rs: set<string>, y: System, e: string, m: string, limits: Meters)
    requires Inv(y) && L.Admissible(y.ledger, L.Create(e, limits))
    ensures var y' := AfterAuthority(cfg, y, L.Create(e, limits));
      && e in y'.ledger.store.budgets && At(y'.ledger.store.budgets[e].limits, m) == At(limits, m)
      && At(limits, m) >= 0.0
      && B.Init(rs, At(limits, m), Abstract(rs, y', e, m))
  {
    var y' := AfterAuthority(cfg, y, L.Create(e, limits));
    CommittedKnown(y);
    forall r | r in rs
      ensures GrantedOf(y', e, m, r) == 0.0 && ConsumedOf(y', e, m, r) == 0.0 && ReservedOf(y', e, m, r) == 0.0
      ensures !CrashedOf(y', e, r)
    {
      assert !HoldsLive(y', e, r);
      SumZero(LeasedSlice(y'.ledger.store.leases, y'.committed, e, m, r));
      SumZero(ConsumedSlice(y'.ledger, y'.committed, e, m, r));
    }
  }

  lemma LimitsStay(cfg: Config, y: System, ev: Event, e: string)
    requires L.WellFormed(y.ledger) && Admissible(y, ev) && e in y.ledger.store.budgets
    ensures e in Next(cfg, y, ev).ledger.store.budgets
    ensures Next(cfg, y, ev).ledger.store.budgets[e].limits == y.ledger.store.budgets[e].limits
  {
    LedgerMoves(cfg, y, ev);
    if ev.Authority? { L.LimitsStay(cfg, y.ledger, ev.txn, e); }
  }

  /** Only the authority's transactions touch the ledger. */
  lemma LedgerMoves(cfg: Config, y: System, ev: Event)
    requires Admissible(y, ev)
    ensures Next(cfg, y, ev).ledger == if ev.Authority? then L.Step(cfg, y.ledger, ev.txn) else y.ledger
  {
  }

  lemma OnlyCreateAdds(cfg: Config, y: System, ev: Event, e: string)
    requires L.WellFormed(y.ledger) && Admissible(y, ev)
    requires e !in y.ledger.store.budgets && e in Next(cfg, y, ev).ledger.store.budgets
    ensures ev.Authority? && ev.txn.Create? && ev.txn.executionID == e
  {
    LedgerMoves(cfg, y, ev);
    if ev.Authority? { L.OnlyCreateAdds(cfg, y.ledger, ev.txn, e); }
  }

  lemma Extend(rs: set<string>, total: real, run: seq<B.State>, last: B.State, s: B.State)
    requires B.Behaviour(rs, total, run) && last == run[|run| - 1]
    requires B.Domains(rs, last) && (s == last || B.Next(rs, last, s))
    ensures B.Behaviour(rs, total, run + [s]) && (run + [s])[|run + [s]| - 1] == s
  {
    var longer := run + [s];
    assert longer[..|longer| - 1] == run && longer[|longer| - 2] == last;
  }

  lemma ExtendTwo(rs: set<string>, total: real, run: seq<B.State>, last: B.State, t: B.State, s: B.State)
    requires B.Behaviour(rs, total, run) && last == run[|run| - 1] && B.Domains(rs, last) && B.Domains(rs, t)
    requires B.Next(rs, last, t) && B.Next(rs, t, s)
    ensures B.Behaviour(rs, total, run + [t] + [s]) && (run + [t] + [s])[|run + [t] + [s]| - 1] == s
  {
    Extend(rs, total, run, last, t);
    Extend(rs, total, run + [t], t, s);
  }

  lemma ExtendRefining(rs: set<string>, total: real, run: seq<B.State>, last: B.State, s: B.State)
    returns (longer: seq<B.State>)
    requires B.Behaviour(rs, total, run) && last == run[|run| - 1] && B.Domains(rs, last) && Refines(rs, last, s)
    ensures B.Behaviour(rs, total, longer) && longer[|longer| - 1] == s
  {
    if s == last || B.Next(rs, last, s) {
      Extend(rs, total, run, last, s);
      longer := run + [s];
    } else {
      var t :| B.Domains(rs, t) && B.Next(rs, last, t) && B.Next(rs, t, s);
      ExtendTwo(rs, total, run, last, t, s);
      longer := run + [t] + [s];
    }
  }

  /** What a run so far has as its abstract behaviour. */
  ghost predicate Traces(rs: set<string>, y: System, e: string, m: string, trace: seq<B.State>) {
    e in y.ledger.store.budgets ==>
      && At(y.ledger.store.budgets[e].limits, m) >= 0.0
      && B.Behaviour(rs, At(y.ledger.store.budgets[e].limits, m), trace)
      && trace[|trace| - 1] == Abstract(rs, y, e, m)
  }

  lemma StepTraces(cfg: Config, rs: set<string>, y: System, e: string, m: string, ev: Event, trace: seq<B.State>)
    returns (longer: seq<B.State>)
    requires Inv(y) && Owned(rs, y) && Disciplined(rs, y, e, m, ev) && Traces(rs, y, e, m, trace)
    ensures Traces(rs, Next(cfg, y, ev), e, m, longer)
  {
    var y' := Next(cfg, y, ev);
    longer := [];
    if e in y.ledger.store.budgets {
      StepRefines(cfg, rs, y, e, m, ev);
      LimitsStay(cfg, y, ev, e);
      longer := ExtendRefining(rs, At(y.ledger.store.budgets[e].limits, m), trace,
                               Abstract(rs, y, e, m), Abstract(rs, y', e, m));
    } else if e in y'.ledger.store.budgets {
      OnlyCreateAdds(cfg, y, ev, e);
      CreateIsInit(cfg, rs, y, e, m, ev.txn.limits);
      longer := [Abstract(rs, y', e, m)];
    }
  }

  lemma {:induction false} RunTraces(cfg: Config, rs: set<string>, y: System, e: string, m: string, events: seq<Event>,
                                     trace: seq<B.State>) returns (longer: seq<B.State>)
    requires Inv(y) && Owned(rs, y) && Traces(rs, y, e, m, trace)
    requires DisciplinedRun(cfg, rs, y, e, m, events) && AdmissibleRun(cfg, y, events)
    ensures Traces(rs, Run(cfg, y, events), e, m, longer)
    decreases |events|
  {
    if events == [] {
      longer := trace;
    } else {
      StepKeepsInv(cfg, y, events[0]);
      OwnedStep(cfg, rs, y, e, m, events[0]);
      var next := StepTraces(cfg, rs, y, e, m, events[0], trace);
      longer := RunTraces(cfg, rs, Next(cfg, y, events[0]), e, m, events[1..], next);
    }
  }

  /**
   Refinement: the abstract image of every disciplined run of the implementation is a behaviour of budget.tla whose
   total is the budget's limit, so its safety invariant holds for what the replicas committed.
   */
  lemma ProtocolRefinesSpec(cfg: Config, rs: set<string>, events: seq<Event>, e: string, m: string)
    returns (run: seq<B.State>)
    requires DisciplinedRun(cfg, rs, START, e, m, events)
    ensures AdmissibleRun(cfg, START, events)
    ensures var y := Run(cfg, START, events);
      e in y.ledger.store.budgets ==>
        && run != [] && run[|run| - 1] == Abstract(rs, y, e, m)
        && B.Behaviour(rs, At(y.ledger.store.budgets[e].limits, m), run)
        && B.SafetyInvariant(At(y.ledger.store.budgets[e].limits, m), Abstract(rs, y, e, m))
  {
    DisciplinedIsAdmissible(cfg, rs, START, e, m, events);
    run := RunTraces(cfg, rs, START, e, m, events, []);
    var y := Run(cfg, START, events);
    if e in y.ledger.store.budgets {
      B.SpecTheorem(rs, At(y.ledger.store.budgets[e].limits, m), run);
    }
  }
}
