/**
 The protocol of LeaseProtocol refines the abstract one of BudgetSpec, one execution and one meter at a time.

 It does so for disciplined runs: one lease per replica, a release only with nothing open and a report of what was
 committed, no work under a closed lease, and a reclaim only when the stored consumption is what was committed.
 Every event is then no, one or two abstract actions.
 */
module LeaseRefinement {
  import opened Results
  import opened Meters
  import opened LeaseManager
  import opened BudgetAuthority
  import opened LeaseProtocol
  import Runs = LeaseManagerRuns
  import L = Ledger
  import B = BudgetSpec

  /** The replica a lease was granted to. */
  ghost function Owner(g: L.Ledger, key: Key): string {
    if key in g.store.leases then g.store.leases[key].replicaID
    else if key in g.closed then g.closed[key].lease.replicaID
    else ""
  }

  function CommittedAt(committed: map<Key, Meters>, key: Key, m: string): real {
    At(Recorded(committed, key), m)
  }

  ghost function LeasedSlice(leases: map<Key, Lease>, committed: map<Key, Meters>, e: string, m: string, r: string)
    : map<Key, real>
  {
    map key | key in leases :: if key.executionID == e && leases[key].replicaID == r
                               then At(leases[key].granted, m) - CommittedAt(committed, key, m) else 0.0
  }

  /** What a replica's live leases were granted and it has not committed. */
  ghost function LeasedSum(leases: map<Key, Lease>, committed: map<Key, Meters>, e: string, m: string, r: string)
    : real
  {
    Sum(LeasedSlice(leases, committed, e, m, r))
  }

  ghost function ConsumedSlice(g: L.Ledger, committed: map<Key, Meters>, e: string, m: string, r: string)
    : map<Key, real>
  {
    map key | key in committed :: if key.executionID == e && Owner(g, key) == r then At(committed[key], m) else 0.0
  }

  ghost function ConsumedSum(g: L.Ledger, committed: map<Key, Meters>, e: string, m: string, r: string): real {
    Sum(ConsumedSlice(g, committed, e, m, r))
  }

  ghost predicate HoldsLive(y: System, e: string, r: string) {
    && r in y.replicas && y.replicas[r].lease.Some?
    && y.replicas[r].lease.value.executionID == e
    && KeyOf(y.replicas[r].lease.value) in y.ledger.store.leases
  }

  ghost function ReservedOf(y: System, e: string, m: string, r: string): real {
    if HoldsLive(y, e, r) then OpenAt(y.replicas[r].reservations, m) else 0.0
  }

  ghost function GrantedOf(y: System, e: string, m: string, r: string): real {
    LeasedSum(y.ledger.store.leases, y.committed, e, m, r) - ReservedOf(y, e, m, r)
  }

  ghost function ConsumedOf(y: System, e: string, m: string, r: string): real {
    ConsumedSum(y.ledger, y.committed, e, m, r)
  }

  /** A crash matters to the abstract protocol while the crashed replica's lease is live. */
  ghost predicate CrashedOf(y: System, e: string, r: string) {
    HoldsLive(y, e, r) && r in y.crashed
  }

  ghost function Abstract(rs: set<string>, y: System, e: string, m: string): B.State
    requires e in y.ledger.store.budgets
  {
    B.State(At(y.ledger.store.budgets[e].remaining, m),
            map r | r in rs :: GrantedOf(y, e, m, r),
            map r | r in rs :: ConsumedOf(y, e, m, r),
            map r | r in rs :: ReservedOf(y, e, m, r),
            map r | r in rs :: CrashedOf(y, e, r))
  }

  /** No, one or two abstract actions. */
  ghost predicate Refines(rs: set<string>, s: B.State, s': B.State)
    requires B.Domains(rs, s)
  {
    s' == s || B.Next(rs, s, s') || exists t | B.Domains(rs, t) :: B.Next(rs, s, t) && B.Next(rs, t, s')
  }

  datatype Action = Acquire | Reserve | CommitReserve | ReleaseReserve | Release | Expire

  /** Replica r takes the abstract action, with the amount that its columns show; one that is up crashes to expire. */
  ghost predicate Takes(rs: set<string>, s: B.State, s': B.State, r: string, action: Action)
    requires B.Domains(rs, s) && B.Domains(rs, s')
  {
    r in rs && match action
      case Acquire => B.Acquire(s, s', r, s.remaining - s'.remaining)
      case Reserve => B.Reserve(s, s', r, s'.reserved[r] - s.reserved[r])
      case CommitReserve => B.CommitReserve(s, s', r, s'.consumed[r] - s.consumed[r])
      case ReleaseReserve => B.ReleaseReserve(s, s', r, s.reserved[r] - s'.reserved[r])
      case Release => B.Release(s, s', r)
      case Expire =>
        var t := s.(crashed := s.crashed[r := true]);
        B.Expire(s, s', r) || (B.Crash(s, t, r) && B.Expire(t, s', r))
  }

  /** The named action of the replica, or nothing. */
  ghost predicate Acts(rs: set<string>, s: B.State, s': B.State, r: string, action: Option<Action>) {
    && B.Domains(rs, s) && B.Domains(rs, s')
    && (s' == s || (action.Some? && Takes(rs, s, s', r, action.value)))
  }

  /** The action of a call on a replica's lease manager. */
  function CallAction(op: Runs.Op): Option<Action> {
    match op
    case Reserve(_, _) => Some(Action.Reserve)
    case Commit(_) => Some(CommitReserve)
    case Release(_) => Some(ReleaseReserve)
    case _ => None
  }

  /** The action of a transaction of the authority. */
  function TxnAction(op: L.Op): Option<Action> {
    match op
    case Acquire(_, _, _) => Some(Action.Acquire)
    case Renew(_, _, _) => Some(Action.Acquire)
    case Release(_, _) => Some(Action.Release)
    case Reclaim(_, _) => Some(Expire)
    case _ => None
  }

  /** The replica that the transaction's lease belongs to. */
  ghost function TxnReplica(y: System, op: L.Op): string {
    var leases := y.ledger.store.leases;
    match op
    case Acquire(req, _, _) => req.replicaID
    case Renew(leaseID, _, _) =>
      var found := L.FindById(y.ledger.store, leaseID);
      if found.Some? then found.value.replicaID else ""
    case Release(leaseID, _) =>
      var found := L.FindById(y.ledger.store, leaseID);
      if found.Some? then found.value.replicaID else ""
    case Reclaim(expired, _) => if KeyOf(expired) in leases then leases[KeyOf(expired)].replicaID else ""
    case _ => ""
  }

  lemma ActsRefines(rs: set<string>, s: B.State, s': B.State, r: string, action: Option<Action>)
    requires Acts(rs, s, s', r, action)
    ensures Refines(rs, s, s')
  {
    if s' != s {
      var t := s.(crashed := s.crashed[r := true]);
      if action.value.Expire? && !B.Expire(s, s', r) {
        assert B.Domains(rs, t) && B.StepOf(s, t, r) && B.StepOf(t, s', r);
        assert B.Next(rs, s, t) && B.Next(rs, t, s');
      } else {
        assert B.StepOf(s, s', r);
      }
    }
  }

  // The discipline.

  ghost predicate NoLive(y: System, r: string) {
    forall key | key in y.ledger.store.leases :: y.ledger.store.leases[key].replicaID != r
  }

  ghost predicate Idle(y: System, r: string) {
    r in y.replicas ==> y.replicas[r].reservations == map[]
  }

  ghost predicate ReleaseDiscipline(y: System, key: Key, consumed: Meters, e: string, m: string)
    requires key in y.ledger.store.leases
  {
    var r := y.ledger.store.leases[key].replicaID;
    && r !in y.crashed && Idle(y, r)
    && (key.executionID == e ==> At(consumed, m) == CommittedAt(y.committed, key, m))
  }

  ghost predicate AuthorityDiscipline(rs: set<string>, y: System, e: string, m: string, op: L.Op) {
    match op
    case Acquire(req, _, _) => req.replicaID in rs && NoLive(y, req.replicaID)
    case Renew(leaseID, _, _) =>
      forall key | key in y.ledger.store.leases && key.leaseID == leaseID ::
        y.ledger.store.leases[key].replicaID !in y.crashed
    case Release(leaseID, consumed) =>
      forall key | key in y.ledger.store.leases && key.leaseID == leaseID :: ReleaseDiscipline(y, key, consumed, e, m)
    case Reclaim(expired, now) =>
      KeyOf(expired) in y.ledger.store.leases && expired.executionID == e ==>
        At(y.ledger.store.leases[KeyOf(expired)].consumed, m) == CommittedAt(y.committed, KeyOf(expired), m)
    case _ => true
  }

  ghost predicate Disciplined(rs: set<string>, y: System, e: string, m: string, ev: Event) {
    && Admissible(y, ev)
    && match ev
       case Authority(op) => AuthorityDiscipline(rs, y, e, m, op)
       case Install(r, lease) =>
         lease.replicaID == r && KeyOf(lease) in y.ledger.store.leases && (Up(y, r) ==> Idle(y, r))
       case Local(r, _) =>
         y.replicas[r].lease.Some? ==> KeyOf(y.replicas[r].lease.value) in y.ledger.store.leases
       case _ => true
  }

  /** Lease values name the replica that owns them, and no replica owns two live leases. */
  ghost predicate Owned(rs: set<string>, y: System) {
    && (forall key | key in y.ledger.store.leases :: y.ledger.store.leases[key].replicaID in rs)
    && (forall k, j | k in y.ledger.store.leases && j in y.ledger.store.leases && k != j ::
          y.ledger.store.leases[k].replicaID != y.ledger.store.leases[j].replicaID)
    && (forall r | r in y.replicas && y.replicas[r].lease.Some? ::
          y.replicas[r].lease.value.replicaID == r && Owner(y.ledger, KeyOf(y.replicas[r].lease.value)) == r)
    && (forall l | l in y.grants :: Owner(y.ledger, KeyOf(l)) == l.replicaID)
    && (forall l | l in y.renewals :: Owner(y.ledger, KeyOf(l)) == l.replicaID)
  }

  lemma OwnerStays(cfg: Config, g: L.Ledger, op: L.Op, key: Key)
    requires L.WellFormed(g) && L.Admissible(g, op) && Known(g, key)
    ensures Owner(L.Step(cfg, g, op), key) == Owner(g, key)
  {
    var moved := L.StepShape(cfg, g, op);
    OwnerStaysMoved(g, L.Step(cfg, g, op), moved, key);
  }

  lemma OwnerStaysMoved(g: L.Ledger, g': L.Ledger, moved: Key, key: Key)
    requires L.Leaves(g, g') || L.Opens(g, g', moved) || L.Renews(g, g', moved) || L.Closes(g, g', moved)
    requires Known(g, key)
    ensures Owner(g', key) == Owner(g, key)
  {
  }

  lemma OwnedAuthorityLeases(cfg: Config, rs: set<string>, y: System, e: string, m: string, op: L.Op)
    requires Inv(y) && Owned(rs, y) && L.Admissible(y.ledger, op) && AuthorityDiscipline(rs, y, e, m, op)
    ensures var leases := L.Step(cfg, y.ledger, op).store.leases;
      && (forall key | key in leases :: leases[key].replicaID in rs)
      && (forall k, j | k in leases && j in leases && k != j :: leases[k].replicaID != leases[j].replicaID)
  {
    var moved := L.StepShape(cfg, y.ledger, op);
    OwnedMoved(rs, y.ledger, L.Step(cfg, y.ledger, op), moved);
  }

  lemma OwnedMoved(rs: set<string>, g: L.Ledger, g': L.Ledger, moved: Key)
    requires L.Leaves(g, g') || L.Renews(g, g', moved) || L.Closes(g, g', moved)
          || (L.Opens(g, g', moved) && g'.store.leases[moved].replicaID in rs
              && forall key | key in g.store.leases ::
                   g.store.leases[key].replicaID != g'.store.leases[moved].replicaID)
    requires forall key | key in g.store.leases :: g.store.leases[key].replicaID in rs
    requires forall k, j | k in g.store.leases && j in g.store.leases && k != j ::
      g.store.leases[k].replicaID != g.store.leases[j].replicaID
    ensures forall key | key in g'.store.leases :: g'.store.leases[key].replicaID in rs
    ensures forall k, j | k in g'.store.leases && j in g'.store.leases && k != j ::
      g'.store.leases[k].replicaID != g'.store.leases[j].replicaID
  {
  }

  lemma OwnedAuthority(cfg: Config, rs: set<string>, y: System, e: string, m: string, op: L.Op)
    requires Inv(y) && Owned(rs, y) && L.Admissible(y.ledger, op) && AuthorityDiscipline(rs, y, e, m, op)
    ensures Owned(rs, AfterAuthority(cfg, y, op))
  {
    var y' := AfterAuthority(cfg, y, op);
    OwnedAuthorityLeases(cfg, rs, y, e, m, op);
    forall r | r in y.replicas && y.replicas[r].lease.Some?
      ensures Owner(y'.ledger, KeyOf(y.replicas[r].lease.value)) == r
    {
      assert ReplicaOk(y, r);
      OwnerStays(cfg, y.ledger, op, KeyOf(y.replicas[r].lease.value));
    }
    forall l | l in y.grants + y.renewals ensures Owner(y'.ledger, KeyOf(l)) == l.replicaID {
      assert Backed(y.ledger, l);
      OwnerStays(cfg, y.ledger, op, KeyOf(l));
    }
    OwnedReplies(cfg, y, op);
  }

  lemma OwnedReplies(cfg: Config, y: System, op: L.Op)
    requires Inv(y) && L.Admissible(y.ledger, op)
    ensures forall l | l in AfterAuthority(cfg, y, op).grants - y.grants ::
      Owner(AfterAuthority(cfg, y, op).ledger, KeyOf(l)) == l.replicaID
    ensures forall l | l in AfterAuthority(cfg, y, op).renewals - y.renewals ::
      Owner(AfterAuthority(cfg, y, op).ledger, KeyOf(l)) == l.replicaID
  {
    if op.Acquire? {
      OwnedGrant(cfg, y, op.req, op.leaseID, op.now);
    } else if op.Renew? {
      OwnedRenewal(cfg, y.ledger, op.leaseID, op.hint, op.now);
    }
  }

  lemma OwnedGrant(cfg: Config, y: System, req: LeaseRequest, leaseID: string, now: Time)
    requires Inv(y) && L.Admissible(y.ledger, L.Acquire(req, leaseID, now))
    ensures var y' := AfterAuthority(cfg, y, L.Acquire(req, leaseID, now));
      y'.renewals == y.renewals && forall l | l in y'.grants - y.grants :: Owner(y'.ledger, KeyOf(l)) == l.replicaID
  {
    if AcquireRefusal(y.ledger.store, req).None? {
      var l := AcquiredShape(cfg, y.ledger, req, leaseID, now);
    }
  }

  lemma OwnedRenewal(cfg: Config, g: L.Ledger, leaseID: string, hint: Meters, now: Time)
    requires L.WellFormed(g)
    ensures var reply := RenewOutcome(cfg, g.store, L.FindById(g.store, leaseID), hint, now).1;
      reply.Success? ==> Owner(L.Step(cfg, g, L.Renew(leaseID, hint, now)), KeyOf(reply.value)) == reply.value.replicaID
  {
    var found := L.FindById(g.store, leaseID);
    if found.Some? && found.value.executionID != "" {
      var l' := L.RenewShape(cfg, g.store, found.value, hint, now);
    }
  }

  lemma OwnedReplica(rs: set<string>, y: System, y': System, r: string)
    requires Owned(rs, y) && y'.ledger == y.ledger && y'.renewals == y.renewals && y'.grants <= y.grants
    requires r in y'.replicas && y'.replicas == y.replicas[r := y'.replicas[r]]
    requires y'.replicas[r].lease.Some? ==>
      y'.replicas[r].lease.value.replicaID == r && Owner(y.ledger, KeyOf(y'.replicas[r].lease.value)) == r
    ensures Owned(rs, y')
  {
  }

  lemma OwnedStep(cfg: Config, rs: set<string>, y: System, e: string, m: string, ev: Event)
    requires Inv(y) && Owned(rs, y) && Disciplined(rs, y, e, m, ev)
    ensures Owned(rs, Next(cfg, y, ev))
  {
    match ev
    case Authority(op) => OwnedAuthority(cfg, rs, y, e, m, op);
    case Install(r, lease) => OwnedReplica(rs, y, AfterInstall(y, r, lease), r);
    case Refresh(r, lease) => OwnedReplica(rs, y, Next(cfg, y, ev), r);
    case Local(r, op) =>
      assert ReplicaOk(y, r);
      LocalLease(y.replicas[r], op);
      LocalReplicaID(y.replicas[r], op);
      OwnedReplica(rs, y, AfterLocal(y, r, op), r);
    case Crash(r) =>
  }

  lemma LocalReplicaID(s: State, op: Runs.Op)
    requires s.lease.Some? && !op.Refresh?
    ensures Runs.Step(s, op).lease.Some? && Runs.Step(s, op).lease.value.replicaID == s.lease.value.replicaID
  {
  }

  // Columns of the abstract state.

  ghost predicate SameColumns(y: System, y': System, e: string, m: string, q: string) {
    && GrantedOf(y', e, m, q) == GrantedOf(y, e, m, q)
    && ConsumedOf(y', e, m, q) == ConsumedOf(y, e, m, q)
    && ReservedOf(y', e, m, q) == ReservedOf(y, e, m, q)
    && CrashedOf(y', e, q) == CrashedOf(y, e, q)
  }

  /** Two abstract states of the same replicas that differ only in r's columns and in what remains. */
  ghost predicate OnlyColumns(rs: set<string>, s: B.State, s': B.State, r: string) {
    && B.Domains(rs, s) && B.Domains(rs, s') && r in rs
    && s'.granted == s.granted[r := s'.granted[r]]
    && s'.consumed == s.consumed[r := s'.consumed[r]]
    && s'.reserved == s.reserved[r := s'.reserved[r]]
    && s'.crashed == s.crashed[r := s'.crashed[r]]
  }

  /** If only replica r's columns move, the abstract states differ only there. */
  lemma AbstractFrame(rs: set<string>, y: System, y': System, e: string, m: string, r: string)
    requires e in y.ledger.store.budgets && e in y'.ledger.store.budgets && r in rs
    requires forall q | q in rs && q != r :: SameColumns(y, y', e, m, q)
    ensures OnlyColumns(rs, Abstract(rs, y, e, m), Abstract(rs, y', e, m), r)
  {
    var s, s' := Abstract(rs, y, e, m), Abstract(rs, y', e, m);
    forall q | q in rs && q != r
      ensures s'.granted[q] == s.granted[q] && s'.consumed[q] == s.consumed[q]
      ensures s'.reserved[q] == s.reserved[q] && s'.crashed[q] == s.crashed[q]
    {
      assert SameColumns(y, y', e, m, q);
    }
    MapFrame(s.granted, s'.granted, r);
    MapFrame(s.consumed, s'.consumed, r);
    MapFrame(s.reserved, s'.reserved, r);
    MapFrame(s.crashed, s'.crashed, r);
  }

  lemma MapFrame<V>(f: map<string, V>, f': map<string, V>, r: string)
    requires f.Keys == f'.Keys && r in f
    requires forall q | q in f && q != r :: f'[q] == f[q]
    ensures f' == f[r := f'[r]]
  {
  }

  lemma AbstractSame(rs: set<string>, y: System, y': System, e: string, m: string)
    requires e in y.ledger.store.budgets && e in y'.ledger.store.budgets
    requires At(y'.ledger.store.budgets[e].remaining, m) == At(y.ledger.store.budgets[e].remaining, m)
    requires forall q | q in rs :: SameColumns(y, y', e, m, q)
    ensures Abstract(rs, y', e, m) == Abstract(rs, y, e, m)
  {
    var s, s' := Abstract(rs, y, e, m), Abstract(rs, y', e, m);
    forall q | q in rs
      ensures s'.granted[q] == s.granted[q] && s'.consumed[q] == s.consumed[q]
      ensures s'.reserved[q] == s.reserved[q] && s'.crashed[q] == s.crashed[q]
    {
      assert SameColumns(y, y', e, m, q);
    }
    MapSame(s.granted, s'.granted);
    MapSame(s.consumed, s'.consumed);
    MapSame(s.reserved, s'.reserved);
    MapSame(s.crashed, s'.crashed);
  }

  lemma MapSame<V>(f: map<string, V>, f': map<string, V>)
    requires f.Keys == f'.Keys && forall q | q in f :: f'[q] == f[q]
    ensures f' == f
  {
  }

  ghost function Delta(g: L.Ledger, committed: map<Key, Meters>, key: Key, c: Meters, e: string, m: string,
      q: string)
    : real
  {
    if key.executionID == e && Owner(g, key) == q then At(c, m) - CommittedAt(committed, key, m) else 0.0
  }

  /** Committing under one key moves its owner's columns. */
  lemma CommitConsumed(g: L.Ledger, committed: map<Key, Meters>, key: Key, c: Meters, e: string, m: string, q: string)
    ensures ConsumedSum(g, committed[key := c], e, m, q)
         == ConsumedSum(g, committed, e, m, q) + Delta(g, committed, key, c, e, m, q)
  {
    var v := if key.executionID == e && Owner(g, key) == q then At(c, m) else 0.0;
    assert ConsumedSlice(g, committed[key := c], e, m, q) == ConsumedSlice(g, committed, e, m, q)[key := v];
    SumPut(ConsumedSlice(g, committed, e, m, q), key, v);
  }

  lemma CommitLeased(g: L.Ledger, committed: map<Key, Meters>, key: Key, c: Meters, e: string, m: string, q: string)
    requires key in g.store.leases
    ensures LeasedSum(g.store.leases, committed[key := c], e, m, q)
         == LeasedSum(g.store.leases, committed, e, m, q) - Delta(g, committed, key, c, e, m, q)
  {
    var leases := g.store.leases;
    var w := if key.executionID == e && leases[key].replicaID == q then At(leases[key].granted, m) - At(c, m) else 0.0;
    assert LeasedSlice(leases, committed[key := c], e, m, q) == LeasedSlice(leases, committed, e, m, q)[key := w];
    SumPut(LeasedSlice(leases, committed, e, m, q), key, w);
  }

  lemma LeasedPut(leases: map<Key, Lease>, committed: map<Key, Meters>, key: Key, l: Lease, e: string, m: string,
      q: string)
    requires key in leases ==> leases[key].replicaID == l.replicaID
    ensures LeasedSum(leases[key := l], committed, e, m, q) == LeasedSum(leases, committed, e, m, q)
      + if key.executionID == e && l.replicaID == q
        then At(l.granted, m) - (if key in leases then At(leases[key].granted, m) else CommittedAt(committed, key, m))
        else 0.0
  {
    var v := if key.executionID == e && l.replicaID == q
             then At(l.granted, m) - CommittedAt(committed, key, m) else 0.0;
    assert LeasedSlice(leases[key := l], committed, e, m, q) == LeasedSlice(leases, committed, e, m, q)[key := v];
    SumPut(LeasedSlice(leases, committed, e, m, q), key, v);
  }

  lemma LeasedRemove(leases: map<Key, Lease>, committed: map<Key, Meters>, key: Key, e: string, m: string, q: string)
    requires key in leases
    ensures LeasedSum(leases, committed, e, m, q) == LeasedSum(leases - {key}, committed, e, m, q)
      + if key.executionID == e && leases[key].replicaID == q
        then At(leases[key].granted, m) - CommittedAt(committed, key, m) else 0.0
  {
    assert LeasedSlice(leases - {key}, committed, e, m, q) == LeasedSlice(leases, committed, e, m, q) - {key};
    SumRemove(LeasedSlice(leases, committed, e, m, q), key);
  }

  /** A replica's only lease is all it has; without that one it has nothing. */
  lemma LeasedOnly(rs: set<string>, y: System, key: Key, e: string, m: string)
    requires Owned(rs, y) && key in y.ledger.store.leases && key.executionID == e
    ensures var r := y.ledger.store.leases[key].replicaID;
      && LeasedSum(y.ledger.store.leases - {key}, y.committed, e, m, r) == 0.0
      && LeasedSum(y.ledger.store.leases, y.committed, e, m, r)
         == At(y.ledger.store.leases[key].granted, m) - CommittedAt(y.committed, key, m)
  {
    var r := y.ledger.store.leases[key].replicaID;
    LeasedRemove(y.ledger.store.leases, y.committed, key, e, m, r);
    SumZero(LeasedSlice(y.ledger.store.leases - {key}, y.committed, e, m, r));
  }

  // Local calls.

  /** What a call commits under its lease's key. */
  ghost function CommitOf(y: System, r: string, op: Runs.Op): Meters
    requires r in y.replicas
  {
    var s := y.replicas[r];
    if op.Commit? && IsOpen(s, op.id) then s.reservations[op.id].values else map[]
  }

  lemma LocalShape(rs: set<string>, y: System, e: string, m: string, r: string, op: Runs.Op) returns (key: Key)
    requires Inv(y) && Owned(rs, y) && Disciplined(rs, y, e, m, Local(r, op))
    ensures y.replicas[r].lease.Some? && key == KeyOf(y.replicas[r].lease.value) && key in y.ledger.store.leases
    ensures Owner(y.ledger, key) == r
    ensures KeyAt(AfterLocal(y, r, op).replicas[r]) == Some(key)
    ensures var y' := AfterLocal(y, r, op);
      && y'.ledger == y.ledger && y'.crashed == y.crashed
      && y'.replicas == y.replicas[r := Runs.Step(y.replicas[r], op)]
      && y'.committed == if op.Commit? && IsOpen(y.replicas[r], op.id)
                         then y.committed[key := Add(CommittedOf(y, key), CommitOf(y, r, op))] else y.committed
  {
    assert ReplicaOk(y, r);
    LocalLease(y.replicas[r], op);
    key := KeyOf(y.replicas[r].lease.value);
  }

  /** The leased and consumed columns of any replica after a call of r. */
  lemma LocalSums(rs: set<string>, y: System, e: string, m: string, r: string, op: Runs.Op, q: string)
    requires Inv(y) && Owned(rs, y) && Disciplined(rs, y, e, m, Local(r, op)) && y.replicas[r].lease.Some?
    ensures var y' := AfterLocal(y, r, op);
      var d := if q == r && y.replicas[r].lease.value.executionID == e then At(CommitOf(y, r, op), m) else 0.0;
      && ConsumedOf(y', e, m, q) == ConsumedOf(y, e, m, q) + d
      && LeasedSum(y'.ledger.store.leases, y'.committed, e, m, q)
         == LeasedSum(y.ledger.store.leases, y.committed, e, m, q) - d
  {
    var key := LocalShape(rs, y, e, m, r, op);
    if op.Commit? && IsOpen(y.replicas[r], op.id) {
      var c := Add(CommittedOf(y, key), CommitOf(y, r, op));
      CommitConsumed(y.ledger, y.committed, key, c, e, m, q);
      CommitLeased(y.ledger, y.committed, key, c, e, m, q);
    }
  }

  lemma HoldFrame(y: System, y': System, e: string, m: string, q: string)
    requires y'.ledger.store.leases.Keys == y.ledger.store.leases.Keys
    requires q in y.replicas <==> q in y'.replicas
    requires q in y.replicas ==> y'.replicas[q] == y.replicas[q]
    requires q in y.crashed <==> q in y'.crashed
    ensures ReservedOf(y', e, m, q) == ReservedOf(y, e, m, q) && CrashedOf(y', e, q) == CrashedOf(y, e, q)
  {
  }

  lemma LocalHold(y: System, e: string, m: string, r: string, op: Runs.Op, q: string)
    requires r in y.replicas && q != r
    ensures ReservedOf(AfterLocal(y, r, op), e, m, q) == ReservedOf(y, e, m, q)
    ensures CrashedOf(AfterLocal(y, r, op), e, q) == CrashedOf(y, e, q)
  {
    HoldFrame(y, AfterLocal(y, r, op), e, m, q);
  }

  lemma LocalOthers(rs: set<string>, y: System, e: string, m: string, r: string, op: Runs.Op, q: string)
    requires Inv(y) && Owned(rs, y) && Disciplined(rs, y, e, m, Local(r, op)) && q != r
    ensures SameColumns(y, AfterLocal(y, r, op), e, m, q)
  {
    assert ReplicaOk(y, r);
    LocalSums(rs, y, e, m, r, op, q);
    LocalHold(y, e, m, r, op, q);
  }

  /** What a call does to its own replica's columns. */
  lemma LocalOwn(rs: set<string>, y: System, e: string, m: string, r: string, op: Runs.Op)
    requires Inv(y) && Owned(rs, y) && Disciplined(rs, y, e, m, Local(r, op))
    requires y.replicas[r].lease.Some? && y.replicas[r].lease.value.executionID == e
    ensures var y', s := AfterLocal(y, r, op), y.replicas[r];
      && HoldsLive(y, e, r) && HoldsLive(y', e, r) && CrashedOf(y', e, r) == CrashedOf(y, e, r) == false
      && ReservedOf(y, e, m, r) == OpenAt(s.reservations, m)
      && ReservedOf(y', e, m, r) == OpenAt(Runs.Step(s, op).reservations, m)
      && ConsumedOf(y', e, m, r) == ConsumedOf(y, e, m, r) + At(CommitOf(y, r, op), m)
      && GrantedOf(y', e, m, r) == GrantedOf(y, e, m, r) + OpenAt(s.reservations, m)
                                   - OpenAt(Runs.Step(s, op).reservations, m) - At(CommitOf(y, r, op), m)
  {
    var key := LocalShape(rs, y, e, m, r, op);
    LocalSums(rs, y, e, m, r, op, r);
  }

  lemma LocalElsewhere(rs: set<string>, y: System, e: string, m: string, r: string, op: Runs.Op)
    requires Inv(y) && Owned(rs, y) && Disciplined(rs, y, e, m, Local(r, op))
    requires y.replicas[r].lease.Some? && y.replicas[r].lease.value.executionID != e
    ensures SameColumns(y, AfterLocal(y, r, op), e, m, r)
  {
    var key := LocalShape(rs, y, e, m, r, op);
    LocalSums(rs, y, e, m, r, op, r);
  }

  /** The amounts of a call fit the columns they are taken from. */
  lemma LocalAmounts(rs: set<string>, y: System, e: string, m: string, r: string, op: Runs.Op)
    requires Inv(y) && Owned(rs, y) && Disciplined(rs, y, e, m, Local(r, op))
    requires y.replicas[r].lease.Some? && y.replicas[r].lease.value.executionID == e
    ensures var s := y.replicas[r];
      var extra := OpenAt(Runs.Step(s, op).reservations, m) - OpenAt(s.reservations, m);
      && OpenAt(s.reservations, m) >= 0.0
      && (op.Reserve? ==> 0.0 <= extra <= GrantedOf(y, e, m, r) && At(CommitOf(y, r, op), m) == 0.0)
      && (op.Commit? ==>
            extra == -At(CommitOf(y, r, op), m) && 0.0 <= At(CommitOf(y, r, op), m) <= OpenAt(s.reservations, m))
      && (op.Release? ==> 0.0 <= -extra <= OpenAt(s.reservations, m) && At(CommitOf(y, r, op), m) == 0.0)
      && (op.Hold? ==> extra == 0.0 && At(CommitOf(y, r, op), m) == 0.0)
  {
    assert ReplicaOk(y, r);
    if op.Reserve? {
      Runs.OpenNonNegative(y.replicas[r].reservations, m);
      ReserveAmount(rs, y, e, m, r, op);
    } else {
      SettleAmount(y.replicas[r], op, m);
    }
  }

  /** What a call that settles takes out of the open reservations, and how much of that it commits. */
  lemma SettleAmount(s: State, op: Runs.Op, m: string)
    requires Runs.Sound(s) && s.lease.Some? && (op.Commit? || op.Release? || op.Hold?)
    ensures var taken := OpenAt(s.reservations, m) - OpenAt(Runs.Step(s, op).reservations, m);
      && 0.0 <= taken <= OpenAt(s.reservations, m)
      && (op.Commit? && IsOpen(s, op.id) ==> taken == At(s.reservations[op.id].values, m))
      && (op.Commit? && !IsOpen(s, op.id) ==> taken == 0.0)
      && (op.Hold? ==> taken == 0.0)
  {
    Runs.OpenNonNegative(s.reservations, m);
    match op
    case Commit(id) =>
      if IsOpen(s, id) {
        OpenAtRemove(s.reservations, id, m);
        Runs.OpenNonNegative(s.reservations - {id}, m);
      }
    case Release(id) =>
      if IsOpen(s, id) {
        OpenAtRemove(s.reservations, id, m);
        Runs.OpenNonNegative(s.reservations - {id}, m);
      }
    case Hold(id) => Runs.HoldKeepsOpen(s, id, m);
  }

  lemma AvailableWithinGranted(rs: set<string>, y: System, e: string, m: string, r: string)
    requires Inv(y) && Owned(rs, y) && HoldsLive(y, e, r)
    ensures Available(y.replicas[r], m) <= GrantedOf(y, e, m, r)
    ensures Available(y.replicas[r], m) >= 0.0
  {
    assert ReplicaOk(y, r);
    var l := y.replicas[r].lease.value;
    LeasedOnly(rs, y, KeyOf(l), e, m);
    assert At(l.granted, m) <= At(GrantedEver(y.ledger, KeyOf(l)), m);
    assert At(CommittedOf(y, KeyOf(l)), m) <= At(l.consumed, m);
    assert At(l.consumed, m) + OpenAt(y.replicas[r].reservations, m) <= At(l.granted, m);
  }

  lemma ReserveAmount(rs: set<string>, y: System, e: string, m: string, r: string, op: Runs.Op)
    requires Inv(y) && Owned(rs, y) && op.Reserve? && HoldsLive(y, e, r) && NonNegative(op.values)
    ensures var s := y.replicas[r];
      0.0 <= OpenAt(Runs.Step(s, op).reservations, m) - OpenAt(s.reservations, m) <= GrantedOf(y, e, m, r)
  {
    var s := y.replicas[r];
    AvailableWithinGranted(rs, y, e, m, r);
    assert ReplicaOk(y, r);
    if CanReserve(s, op.executionID, op.values) {
      OpenAtPut(s.reservations, s.nextID + 1, Reservation(op.values, false), m);
      if m in op.values { assert Available(s, m) >= op.values[m]; }
    }
  }

  /** What a call may move: extra into reserved, c into consumed. */
  predicate Moves(op: Runs.Op, extra: real, c: real, granted: real, reserved: real) {
    match op
    case Reserve(_, _) => c == 0.0 && 0.0 <= extra <= granted
    case Commit(_) => extra == -c && 0.0 <= c <= reserved
    case Release(_) => c == 0.0 && 0.0 <= -extra <= reserved
    case _ => extra == 0.0 && c == 0.0
  }

  /** Moving an amount between a replica's columns is the matching abstract action, or none if it is zero. */
  lemma ColumnsMove(rs: set<string>, s: B.State, s': B.State, r: string, op: Runs.Op, extra: real, c: real)
    requires OnlyColumns(rs, s, s', r) && s'.remaining == s.remaining && !s.crashed[r] && !s'.crashed[r]
    requires s'.granted[r] == s.granted[r] - extra - c
    requires s'.consumed[r] == s.consumed[r] + c
    requires s'.reserved[r] == s.reserved[r] + extra
    requires Moves(op, extra, c, s.granted[r], s.reserved[r])
    ensures Acts(rs, s, s', r, CallAction(op))
  {
    if extra == 0.0 {
      ColumnsSame(s, s', r);
    } else {
      B.SameEntry(s.crashed, r);
      B.SameEntry(s.consumed, r);
      ColumnAction(rs, s, s', r, op, extra, c);
    }
  }

  lemma ColumnsSame(s: B.State, s': B.State, r: string)
    requires r in s.granted && r in s.consumed && r in s.reserved && r in s.crashed && s'.remaining == s.remaining
    requires s'.granted == s.granted[r := s.granted[r]] && s'.consumed == s.consumed[r := s.consumed[r]]
    requires s'.reserved == s.reserved[r := s.reserved[r]] && s'.crashed == s.crashed[r := s.crashed[r]]
    ensures s' == s
  {
    B.SameEntry(s.granted, r);
    B.SameEntry(s.consumed, r);
    B.SameEntry(s.reserved, r);
    B.SameEntry(s.crashed, r);
  }

  lemma ColumnAction(rs: set<string>, s: B.State, s': B.State, r: string, op: Runs.Op, extra: real, c: real)
    requires B.Domains(rs, s) && B.Domains(rs, s') && r in rs && !s.crashed[r] && extra != 0.0
    requires s'.remaining == s.remaining && s'.crashed == s.crashed
    requires s'.granted == s.granted[r := s.granted[r] - extra - c]
    requires s'.consumed == if c == 0.0 then s.consumed else s.consumed[r := s.consumed[r] + c]
    requires s'.reserved == s.reserved[r := s.reserved[r] + extra]
    requires Moves(op, extra, c, s.granted[r], s.reserved[r])
    ensures CallAction(op).Some? && Takes(rs, s, s', r, CallAction(op).value)
  {
    B.SameEntry(s.granted, r);
  }

  lemma AbstractAt(rs: set<string>, y: System, e: string, m: string, r: string)
    requires e in y.ledger.store.budgets && r in rs
    ensures var s := Abstract(rs, y, e, m);
      && B.Domains(rs, s) && s.remaining == At(y.ledger.store.budgets[e].remaining, m)
      && s.granted[r] == GrantedOf(y, e, m, r) && s.consumed[r] == ConsumedOf(y, e, m, r)
      && s.reserved[r] == ReservedOf(y, e, m, r) && s.crashed[r] == CrashedOf(y, e, r)
  {
  }

  /** The columns of replica r after a call, in terms of its columns before. */
  lemma LocalColumns(rs: set<string>, y: System, e: string, m: string, r: string, op: Runs.Op)
    returns (extra: real, c: real)
    requires Inv(y) && Owned(rs, y) && Disciplined(rs, y, e, m, Local(r, op))
    requires y.replicas[r].lease.Some? && y.replicas[r].lease.value.executionID == e
    ensures var y' := AfterLocal(y, r, op);
      && !CrashedOf(y, e, r) && !CrashedOf(y', e, r)
      && GrantedOf(y', e, m, r) == GrantedOf(y, e, m, r) - extra - c
      && ConsumedOf(y', e, m, r) == ConsumedOf(y, e, m, r) + c
      && ReservedOf(y', e, m, r) == ReservedOf(y, e, m, r) + extra
    ensures Moves(op, extra, c, GrantedOf(y, e, m, r), ReservedOf(y, e, m, r))
  {
    LocalOwn(rs, y, e, m, r, op);
    LocalAmounts(rs, y, e, m, r, op);
    extra := OpenAt(Runs.Step(y.replicas[r], op).reservations, m) - OpenAt(y.replicas[r].reservations, m);
    c := At(CommitOf(y, r, op), m);
  }

  lemma LocalAction(rs: set<string>, y: System, e: string, m: string, r: string, op: Runs.Op)
    requires Inv(y) && Owned(rs, y) && Disciplined(rs, y, e, m, Local(r, op)) && e in y.ledger.store.budgets
    requires y.replicas[r].lease.Some? && y.replicas[r].lease.value.executionID == e && r in rs
    requires AfterLocal(y, r, op).ledger == y.ledger
    requires forall q | q in rs && q != r :: SameColumns(y, AfterLocal(y, r, op), e, m, q)
    ensures var y' := AfterLocal(y, r, op);
      Acts(rs, Abstract(rs, y, e, m), Abstract(rs, y', e, m), r, CallAction(op))
  {
    var extra, c := LocalColumns(rs, y, e, m, r, op);
    MoveActs(rs, y, AfterLocal(y, r, op), e, m, r, op, extra, c);
  }

  lemma MoveActs(rs: set<string>, y: System, y': System, e: string, m: string, r: string, op: Runs.Op, extra: real,
      c: real)
    requires y'.ledger == y.ledger && e in y.ledger.store.budgets && r in rs
    requires forall q | q in rs && q != r :: SameColumns(y, y', e, m, q)
    requires !CrashedOf(y, e, r) && !CrashedOf(y', e, r)
    requires GrantedOf(y', e, m, r) == GrantedOf(y, e, m, r) - extra - c
    requires ConsumedOf(y', e, m, r) == ConsumedOf(y, e, m, r) + c
    requires ReservedOf(y', e, m, r) == ReservedOf(y, e, m, r) + extra
    requires Moves(op, extra, c, GrantedOf(y, e, m, r), ReservedOf(y, e, m, r))
    ensures Acts(rs, Abstract(rs, y, e, m), Abstract(rs, y', e, m), r, CallAction(op))
  {
    AbstractAt(rs, y, e, m, r);
    AbstractAt(rs, y', e, m, r);
    AbstractFrame(rs, y, y', e, m, r);
    ColumnsMove(rs, Abstract(rs, y, e, m), Abstract(rs, y', e, m), r, op, extra, c);
  }

  lemma LocalOwner(rs: set<string>, y: System, e: string, m: string, r: string, op: Runs.Op)
    requires Inv(y) && Owned(rs, y) && Disciplined(rs, y, e, m, Local(r, op))
    ensures y.replicas[r].lease.Some? && r in rs && AfterLocal(y, r, op).ledger == y.ledger
  {
    var key := LocalShape(rs, y, e, m, r, op);
  }

  lemma LocalStutters(rs: set<string>, y: System, e: string, m: string, r: string, op: Runs.Op)
    requires Inv(y) && Owned(rs, y) && Disciplined(rs, y, e, m, Local(r, op)) && e in y.ledger.store.budgets
    requires y.replicas[r].lease.Some? && y.replicas[r].lease.value.executionID != e
    requires AfterLocal(y, r, op).ledger == y.ledger
    requires forall q | q in rs && q != r :: SameColumns(y, AfterLocal(y, r, op), e, m, q)
    ensures Abstract(rs, AfterLocal(y, r, op), e, m) == Abstract(rs, y, e, m)
  {
    LocalElsewhere(rs, y, e, m, r, op);
    AbstractSame(rs, y, AfterLocal(y, r, op), e, m);
  }

  /** The abstract action of a call: reserve, commit or release the meter's amount, or nothing. */
  lemma LocalRefines(rs: set<string>, y: System, e: string, m: string, r: string, op: Runs.Op)
    requires Inv(y) && Owned(rs, y) && Disciplined(rs, y, e, m, Local(r, op)) && e in y.ledger.store.budgets
    ensures var y' := AfterLocal(y, r, op);
      e in y'.ledger.store.budgets && Acts(rs, Abstract(rs, y, e, m), Abstract(rs, y', e, m), r, CallAction(op))
  {
    LocalOwner(rs, y, e, m, r, op);
    forall q | q in rs && q != r { LocalOthers(rs, y, e, m, r, op, q); }
    if y.replicas[r].lease.value.executionID == e {
      LocalAction(rs, y, e, m, r, op);
    } else {
      LocalStutters(rs, y, e, m, r, op);
    }
  }
}
