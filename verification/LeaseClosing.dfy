/**
 When closing a lease keeps the promise "spent never exceeds budget".

 The claims on a budget are what may still be leased, what live leases may spend and what was spent under closed ones.
 They bound all spending, and only closing a lease, or committing under a closed one, ever moves them.
 */
module LeaseClosing {
  import opened Meters
  import opened LeaseManager
  import opened BudgetAuthority
  import opened LeaseProtocol
  import Runs = LeaseManagerRuns
  import L = Ledger

  ghost function ClosedSpentSlice(y: System, e: string, m: string): map<Key, real> {
    map key | key in y.ledger.closed :: if key.executionID == e then At(CommittedOf(y, key), m) else 0.0
  }

  /** What may still be leased, what live leases may still spend, and what was spent under closed ones. */
  ghost function Claims(y: System, e: string, m: string): real
    requires e in y.ledger.store.budgets
  {
    At(y.ledger.store.budgets[e].remaining, m) + L.LiveAt(y.ledger.store.leases, e, m) + Sum(ClosedSpentSlice(y, e, m))
  }

  ghost predicate Closes(y: System, op: L.Op, key: Key) {
    && key in y.ledger.store.leases
    && match op
       case Release(leaseID, _) => leaseID == key.leaseID
       case Reclaim(expired, now) => KeyOf(expired) == key && y.ledger.store.leases[key].expiresAt <= now
       case _ => false
  }

  ghost function ChargeOf(y: System, op: L.Op, key: Key): Meters
    requires Closes(y, op, key)
  {
    var l := y.ledger.store.leases[key];
    L.Charge(l.granted, if op.Release? then op.consumed else l.consumed)
  }

  lemma CloseStep(cfg: Config, y: System, op: L.Op, key: Key)
    requires Inv(y) && Closes(y, op, key)
    ensures AfterAuthority(cfg, y, op) == y.(ledger :=
      L.Close(y.ledger, y.ledger.store.leases[key],
              if op.Release? then op.consumed else y.ledger.store.leases[key].consumed))
  {
    if op.Release? {
      L.FoundUnique(y.ledger, op.leaseID, y.ledger.store.leases[key]);
    }
  }

  lemma ClosedSpentPut(y: System, y': System, key: Key, c: L.Closing, e: string, m: string)
    requires key !in y.ledger.closed && y'.ledger.closed == y.ledger.closed[key := c] && y'.committed == y.committed
    ensures Sum(ClosedSpentSlice(y', e, m)) == Sum(ClosedSpentSlice(y, e, m))
      + if key.executionID == e then At(CommittedOf(y, key), m) else 0.0
  {
    var v := if key.executionID == e then At(CommittedOf(y, key), m) else 0.0;
    assert ClosedSpentSlice(y', e, m) == ClosedSpentSlice(y, e, m)[key := v];
    SumPut(ClosedSpentSlice(y, e, m), key, v);
  }

  /** Closing a lease moves the claims on its budget by exactly what it committed less what it is charged. */
  lemma CloseMovesClaims(cfg: Config, y: System, op: L.Op, key: Key, m: string)
    requires Inv(y) && Closes(y, op, key)
    ensures var y' := AfterAuthority(cfg, y, op);
      && key.executionID in y.ledger.store.budgets && key.executionID in y'.ledger.store.budgets
      && Claims(y', key.executionID, m)
         == Claims(y, key.executionID, m) + At(CommittedOf(y, key), m) - At(ChargeOf(y, op, key), m)
  {
    CloseStep(cfg, y, op, key);
    var y' := AfterAuthority(cfg, y, op);
    var l := y.ledger.store.leases[key];
    var consumed := if op.Release? then op.consumed else l.consumed;
    L.LiveRemove(y.ledger.store.leases, key, key.executionID, m);
    ClosedSpentPut(y, y', key, L.Closing(l, L.Charge(l.granted, consumed)), key.executionID, m);
    L.CreditAndCharge(l.granted, consumed, m);
  }

  /** A budget whose claims equal its limit stays within it exactly when the report covers what was committed. */
  lemma ReleaseSafeIff(cfg: Config, y: System, key: Key, consumed: Meters, m: string)
    requires Inv(y) && Closes(y, L.Release(key.leaseID, consumed), key)
    requires Claims(y, key.executionID, m) == At(y.ledger.store.budgets[key.executionID].limits, m)
    ensures var y' := AfterAuthority(cfg, y, L.Release(key.leaseID, consumed));
      && key.executionID in y'.ledger.store.budgets
      && (Claims(y', key.executionID, m) <= At(y'.ledger.store.budgets[key.executionID].limits, m)
          <==> (m in y.ledger.store.leases[key].granted ==> At(CommittedOf(y, key), m) <= At(consumed, m)))
  {
    var op := L.Release(key.leaseID, consumed);
    CloseMovesClaims(cfg, y, op, key, m);
    CloseStep(cfg, y, op, key);
    CommittedWithin(y, key, m);
  }

  /** A reclaim by the sweeper is within the limit exactly when nothing was committed under the lease. */
  lemma ReclaimSafeIff(cfg: Config, y: System, key: Key, expired: Lease, now: Time, m: string)
    requires Inv(y) && L.NothingConsumed(y.ledger) && Closes(y, L.Reclaim(expired, now), key)
    requires Claims(y, key.executionID, m) == At(y.ledger.store.budgets[key.executionID].limits, m)
    ensures var y' := AfterAuthority(cfg, y, L.Reclaim(expired, now));
      && key.executionID in y'.ledger.store.budgets
      && (Claims(y', key.executionID, m) <= At(y'.ledger.store.budgets[key.executionID].limits, m)
          <==> At(CommittedOf(y, key), m) == 0.0)
  {
    var op := L.Reclaim(expired, now);
    CloseMovesClaims(cfg, y, op, key, m);
    CloseStep(cfg, y, op, key);
    CommittedWithin(y, key, m);
    L.ReclaimChargesNothing(cfg, y.ledger, expired, now, m);
    assert At(y.ledger.store.leases[key].consumed, m) == 0.0;
  }

  /** Claims equal the limit as long as every closed lease was charged what it committed, in particular at the start. */
  lemma ExactClaims(y: System, e: string, m: string)
    requires Inv(y) && e in y.ledger.store.budgets
    requires forall key | key in y.ledger.closed && key.executionID == e ::
      At(y.ledger.closed[key].charged, m) == At(CommittedOf(y, key), m)
    ensures Claims(y, e, m) == At(y.ledger.store.budgets[e].limits, m)
  {
    assert ClosedSpentSlice(y, e, m) == L.ChargedSlice(y.ledger.closed, e, m);
    assert L.Balanced(y.ledger, e, m);
  }

  // Claims and spending.

  /** Claims are the limit with the charges of closed leases replaced by what was committed under them. */
  lemma ClaimsFormula(y: System, e: string, m: string)
    requires e in y.ledger.store.budgets && L.Balanced(y.ledger, e, m)
    ensures Claims(y, e, m) == At(y.ledger.store.budgets[e].limits, m) - L.ChargedAt(y.ledger.closed, e, m)
                               + Sum(ClosedSpentSlice(y, e, m))
  {
  }

  lemma ClosedSpentSame(y: System, y': System, e: string, m: string)
    requires y'.ledger.closed == y.ledger.closed && y'.committed == y.committed
    ensures ClosedSpentSlice(y', e, m) == ClosedSpentSlice(y, e, m)
  {
  }

  lemma SpentOnKey(y: System, e: string, m: string, key: Key)
    requires Inv(y)
    ensures Value(SpentSlice(y.committed, e, m), key)
         <= Value(L.LiveSlice(y.ledger.store.leases, e, m), key) + Value(ClosedSpentSlice(y, e, m), key)
  {
    if key in y.committed {
      assert EntryOk(y.ledger, key, y.committed[key]);
    } else if key in y.ledger.store.leases {
      assert NonNegative(y.ledger.store.leases[key].granted);
    }
  }

  /** All that was ever spent, and what may still be leased, are within the claims. */
  lemma SpentWithinClaims(y: System, e: string, m: string)
    requires Inv(y) && e in y.ledger.store.budgets
    ensures SpentAt(y, e, m) + At(y.ledger.store.budgets[e].remaining, m) <= Claims(y, e, m)
    ensures At(y.ledger.store.budgets[e].remaining, m) >= 0.0
  {
    var keys := y.ledger.store.leases.Keys + y.ledger.closed.Keys;
    CommittedKnown(y);
    var spent := Pad(SpentSlice(y.committed, e, m), keys);
    var live := Pad(L.LiveSlice(y.ledger.store.leases, e, m), keys);
    var closed := Pad(ClosedSpentSlice(y, e, m), keys);
    var none := map key | key in keys :: 0.0;
    SumZero(none);
    forall key | key in keys ensures spent[key] <= live[key] + closed[key] + none[key] {
      SpentOnKey(y, e, m, key);
    }
    SumWithinThree(spent, live, closed, none);
    assert L.Balanced(y.ledger, e, m);
  }

  // What moves the claims.

  /** A transaction moves them only by closing a lease of the execution, by what it leaves uncharged. */
  ghost function MovedByTxn(y: System, op: L.Op, e: string, m: string): real {
    match op
    case Release(leaseID, consumed) =>
      var found := L.FindById(y.ledger.store, leaseID);
      if found.Some? && found.value.executionID == e
      then At(CommittedOf(y, KeyOf(found.value)), m) - At(L.Charge(found.value.granted, consumed), m) else 0.0
    case Reclaim(expired, now) =>
      var key := KeyOf(expired);
      if key in y.ledger.store.leases && y.ledger.store.leases[key].expiresAt <= now && key.executionID == e
      then At(CommittedOf(y, key), m)
           - At(L.Charge(y.ledger.store.leases[key].granted, y.ledger.store.leases[key].consumed), m)
      else 0.0
    case _ => 0.0
  }

  /** A replica moves them only by committing under a lease that is closed. */
  ghost function MovedByCall(y: System, r: string, call: Runs.Op, e: string, m: string): real
    requires r in y.replicas
  {
    var s := y.replicas[r];
    if call.Commit? && IsOpen(s, call.id) && s.lease.Some? && s.lease.value.executionID == e
       && KeyOf(s.lease.value) in y.ledger.closed
    then At(s.reservations[call.id].values, m) else 0.0
  }

  ghost function MovedBy(y: System, ev: Event, e: string, m: string): real
    requires Admissible(y, ev)
  {
    match ev
    case Authority(op) => MovedByTxn(y, op, e, m)
    case Local(r, call) => MovedByCall(y, r, call, e, m)
    case _ => 0.0
  }

  lemma CloseMovesAny(cfg: Config, y: System, op: L.Op, key: Key, e: string, m: string)
    requires Inv(y) && Closes(y, op, key) && e in y.ledger.store.budgets
    ensures var y' := AfterAuthority(cfg, y, op);
      && e in y'.ledger.store.budgets
      && Claims(y', e, m) == Claims(y, e, m)
           + if key.executionID == e then At(CommittedOf(y, key), m) - At(ChargeOf(y, op, key), m) else 0.0
  {
    if key.executionID == e {
      CloseMovesClaims(cfg, y, op, key, m);
    } else {
      CloseStep(cfg, y, op, key);
      var y' := AfterAuthority(cfg, y, op);
      var l := y.ledger.store.leases[key];
      var consumed := if op.Release? then op.consumed else l.consumed;
      L.LiveRemove(y.ledger.store.leases, key, e, m);
      ClosedSpentPut(y, y', key, L.Closing(l, L.Charge(l.granted, consumed)), e, m);
    }
  }

  lemma SameClosed(y: System, y': System, e: string, m: string)
    requires e in y.ledger.store.budgets && e in y'.ledger.store.budgets
    requires L.Balanced(y.ledger, e, m) && L.Balanced(y'.ledger, e, m)
    requires y'.ledger.store.budgets[e].limits == y.ledger.store.budgets[e].limits
    requires y'.ledger.closed == y.ledger.closed && y'.committed == y.committed
    ensures Claims(y', e, m) == Claims(y, e, m)
  {
    ClaimsFormula(y, e, m);
    ClaimsFormula(y', e, m);
    ClosedSpentSame(y, y', e, m);
  }

  lemma TxnMovesClaims(cfg: Config, y: System, op: L.Op, e: string, m: string)
    requires Inv(y) && L.Admissible(y.ledger, op) && e in y.ledger.store.budgets
    ensures var y' := AfterAuthority(cfg, y, op);
      e in y'.ledger.store.budgets && Claims(y', e, m) == Claims(y, e, m) + MovedByTxn(y, op, e, m)
  {
    var y' := AfterAuthority(cfg, y, op);
    if op.Release? && L.FindById(y.ledger.store, op.leaseID).Some? {
      var key := KeyOf(L.FindById(y.ledger.store, op.leaseID).value);
      assert Closes(y, op, key);
      CloseMovesAny(cfg, y, op, key, e, m);
    } else if op.Reclaim? && KeyOf(op.expired) in y.ledger.store.leases
              && y.ledger.store.leases[KeyOf(op.expired)].expiresAt <= op.now {
      CloseMovesAny(cfg, y, op, KeyOf(op.expired), e, m);
    } else {
      OpenTxnMovesNothing(cfg, y, op, e, m);
    }
  }

  lemma OpenTxnMovesNothing(cfg: Config, y: System, op: L.Op, e: string, m: string)
    requires L.Conserved(y.ledger) && L.Admissible(y.ledger, op) && e in y.ledger.store.budgets
    requires op.Release? ==> L.FindById(y.ledger.store, op.leaseID).None?
    requires op.Reclaim? ==>
      KeyOf(op.expired) !in y.ledger.store.leases || y.ledger.store.leases[KeyOf(op.expired)].expiresAt > op.now
    ensures var y' := AfterAuthority(cfg, y, op);
      e in y'.ledger.store.budgets && Claims(y', e, m) == Claims(y, e, m)
  {
    var y' := AfterAuthority(cfg, y, op);
    OpenTxnKeepsClosed(cfg, y.ledger, op);
    L.StepConserves(cfg, y.ledger, op);
    L.LimitsStay(cfg, y.ledger, op, e);
    assert L.Balanced(y.ledger, e, m) && L.Balanced(y'.ledger, e, m);
    SameClosed(y, y', e, m);
  }

  lemma OpenTxnKeepsClosed(cfg: Config, g: L.Ledger, op: L.Op)
    requires L.WellFormed(g) && L.Admissible(g, op)
    requires op.Release? ==> L.FindById(g.store, op.leaseID).None?
    requires op.Reclaim? ==>
      KeyOf(op.expired) !in g.store.leases || g.store.leases[KeyOf(op.expired)].expiresAt > op.now
    ensures L.Step(cfg, g, op).closed == g.closed
  {
    var key := L.StepShape(cfg, g, op);
  }

  lemma CommitMovesClosed(y: System, y': System, key: Key, c: Meters, e: string, m: string)
    requires y'.ledger == y.ledger && y'.committed == y.committed[key := c]
    ensures Sum(ClosedSpentSlice(y', e, m)) == Sum(ClosedSpentSlice(y, e, m))
      + if key in y.ledger.closed && key.executionID == e then At(c, m) - At(CommittedOf(y, key), m) else 0.0
  {
    var v := if key.executionID == e then At(c, m) else 0.0;
    if key in y.ledger.closed {
      assert ClosedSpentSlice(y', e, m) == ClosedSpentSlice(y, e, m)[key := v];
      SumPut(ClosedSpentSlice(y, e, m), key, v);
    } else {
      assert ClosedSpentSlice(y', e, m) == ClosedSpentSlice(y, e, m);
    }
  }

  lemma CallMovesClaims(y: System, r: string, call: Runs.Op, e: string, m: string)
    requires r in y.replicas && e in y.ledger.store.budgets
    ensures var y' := AfterLocal(y, r, call);
      y'.ledger == y.ledger && Claims(y', e, m) == Claims(y, e, m) + MovedByCall(y, r, call, e, m)
  {
    var y', s := AfterLocal(y, r, call), y.replicas[r];
    if call.Commit? && IsOpen(s, call.id) && s.lease.Some? {
      var key := KeyOf(s.lease.value);
      CommitMovesClosed(y, y', key, Add(CommittedOf(y, key), s.reservations[call.id].values), e, m);
    } else {
      ClosedSpentSame(y, y', e, m);
    }
  }

  lemma Aside(y: System, y': System, e: string, m: string)
    requires y'.ledger == y.ledger && y'.committed == y.committed && e in y.ledger.store.budgets
    ensures Claims(y', e, m) == Claims(y, e, m)
  {
    ClosedSpentSame(y, y', e, m);
  }

  /** Closing a lease and committing under a closed one are all that ever moves the claims on a budget. */
  lemma ClaimsMove(cfg: Config, y: System, ev: Event, e: string, m: string)
    requires Inv(y) && Admissible(y, ev) && e in y.ledger.store.budgets
    ensures var y' := Next(cfg, y, ev);
      && e in y'.ledger.store.budgets && y'.ledger.store.budgets[e].limits == y.ledger.store.budgets[e].limits
      && Claims(y', e, m) == Claims(y, e, m) + MovedBy(y, ev, e, m)
  {
    match ev
    case Authority(op) =>
      TxnMovesClaims(cfg, y, op, e, m);
      L.LimitsStay(cfg, y.ledger, op, e);
    case Local(r, call) => CallMovesClaims(y, r, call, e, m);
    case Install(r, lease) => Aside(y, Next(cfg, y, ev), e, m);
    case Refresh(r, lease) => Aside(y, Next(cfg, y, ev), e, m);
    case Crash(r) => Aside(y, Next(cfg, y, ev), e, m);
  }

  /** Every close is charged at least what was committed, and nothing is committed under a closed lease. */
  ghost predicate FullyCharged(cfg: Config, y: System, events: seq<Event>, e: string, m: string)
    requires AdmissibleRun(cfg, y, events)
    decreases |events|
  {
    || events == []
    || (MovedBy(y, events[0], e, m) <= 0.0 && FullyCharged(cfg, Next(cfg, y, events[0]), events[1..], e, m))
  }

  /** From claims within the limit, every continuation that charges its closes in full keeps S <= B. */
  lemma {:induction false} ChargedRunKeepsBudget(cfg: Config, y: System, events: seq<Event>, e: string, m: string)
    requires Inv(y) && AdmissibleRun(cfg, y, events) && FullyCharged(cfg, y, events, e, m)
    requires e in y.ledger.store.budgets && Claims(y, e, m) <= At(y.ledger.store.budgets[e].limits, m)
    ensures var y' := Run(cfg, y, events);
      && e in y'.ledger.store.budgets && y'.ledger.store.budgets[e].limits == y.ledger.store.budgets[e].limits
      && Claims(y', e, m) <= At(y.ledger.store.budgets[e].limits, m)
      && SpentAt(y', e, m) <= At(y.ledger.store.budgets[e].limits, m)
    decreases |events|
  {
    if events == [] {
      SpentWithinClaims(y, e, m);
    } else {
      ClaimsMove(cfg, y, events[0], e, m);
      StepKeepsInv(cfg, y, events[0]);
      ChargedRunKeepsBudget(cfg, Next(cfg, y, events[0]), events[1..], e, m);
    }
  }

  /** After a release whose report covers what was committed, S <= B holds and keeps holding. */
  lemma SafeReleaseKeepsBudget(cfg: Config, y: System, key: Key, consumed: Meters, m: string, events: seq<Event>)
    requires Inv(y) && Closes(y, L.Release(key.leaseID, consumed), key)
    requires Claims(y, key.executionID, m) == At(y.ledger.store.budgets[key.executionID].limits, m)
    requires At(CommittedOf(y, key), m) <= At(consumed, m)
    requires var y' := AfterAuthority(cfg, y, L.Release(key.leaseID, consumed));
      AdmissibleRun(cfg, y', events) && FullyCharged(cfg, y', events, key.executionID, m)
    ensures var z := Run(cfg, AfterAuthority(cfg, y, L.Release(key.leaseID, consumed)), events);
      SpentAt(z, key.executionID, m) <= At(y.ledger.store.budgets[key.executionID].limits, m)
  {
    var op := L.Release(key.leaseID, consumed);
    ReleaseSafeIff(cfg, y, key, consumed, m);
    AuthorityKeepsInv(cfg, y, op);
    L.LimitsStay(cfg, y.ledger, op, key.executionID);
    ChargedRunKeepsBudget(cfg, AfterAuthority(cfg, y, op), events, key.executionID, m);
  }
}
