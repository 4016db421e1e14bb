/**
 When a continuation can overspend.

 Any lease can be released by name with an exact report, which brings an execution to rest without moving its claims.
 At rest, claims are what remains and what was spent, and what remains can be leased and spent.
 */
module OverspendCondition {
  import opened Meters
  import opened LeaseManager
  import opened BudgetAuthority
  import opened LeaseProtocol
  import opened LeaseClosing
  import opened LeaseOverspend
  import Runs = LeaseManagerRuns
  import L = Ledger

  // At rest.

  /** No lease of the execution is live. */
  ghost predicate Quiet(y: System, e: string) {
    forall key | key in y.ledger.store.leases :: key.executionID != e
  }

  /** Without a live lease, claims are what remains and what was spent. */
  lemma QuietClaims(y: System, e: string, m: string)
    requires Inv(y) && e in y.ledger.store.budgets && Quiet(y, e)
    ensures Claims(y, e, m) == Remaining(y, e, m) + SpentAt(y, e, m)
  {
    SumZero(L.LiveSlice(y.ledger.store.leases, e, m));
    QuietSpent(y, e, m);
  }

  lemma QuietSpent(y: System, e: string, m: string)
    requires Inv(y) && Quiet(y, e)
    ensures SpentAt(y, e, m) == Sum(ClosedSpentSlice(y, e, m))
  {
    CommittedKnown(y);
    var keys := y.committed.Keys + y.ledger.closed.Keys;
    var spent, closed := Pad(SpentSlice(y.committed, e, m), keys), Pad(ClosedSpentSlice(y, e, m), keys);
    forall key | key in keys ensures spent[key] == closed[key] {
      QuietKey(y, e, m, key);
    }
    assert spent == closed;
  }

  lemma QuietKey(y: System, e: string, m: string, key: Key)
    requires y.committed.Keys <= y.ledger.store.leases.Keys + y.ledger.closed.Keys && Quiet(y, e)
    ensures Value(SpentSlice(y.committed, e, m), key) == Value(ClosedSpentSlice(y, e, m), key)
  {
  }

  /** And what remains is the limit less the charges. */
  lemma QuietRemaining(y: System, e: string, m: string)
    requires Inv(y) && e in y.ledger.store.budgets && Quiet(y, e)
    ensures Remaining(y, e, m) == At(Limits(y, e), m) - L.ChargedAt(y.ledger.closed, e, m) >= 0.0
  {
    SumZero(L.LiveSlice(y.ledger.store.leases, e, m));
    assert L.Balanced(y.ledger, e, m);
  }

  // Bringing an execution to rest.

  function LiveKeys(leases: map<Key, Lease>, e: string): set<Key> {
    set key | key in leases && key.executionID == e
  }

  /** A release by name that reports what was committed of a meter. */
  ghost function ExactRelease(y: System, key: Key, m: string): L.Op {
    L.Release(key.leaseID, map[m := At(CommittedOf(y, key), m)])
  }

  /** It closes that lease and nothing else. */
  lemma ExactReleaseCloses(cfg: Config, y: System, key: Key, m: string)
    requires Inv(y) && key in y.ledger.store.leases
    ensures Closes(y, ExactRelease(y, key, m), key) && L.Admissible(y.ledger, ExactRelease(y, key, m))
    ensures var z := AfterAuthority(cfg, y, ExactRelease(y, key, m));
      Inv(z) && z.ledger.store.leases == y.ledger.store.leases - {key} && z.committed == y.committed
  {
    assert key == KeyOf(y.ledger.store.leases[key]);
    CloseStep(cfg, y, ExactRelease(y, key, m), key);
    AuthorityKeepsInv(cfg, y, ExactRelease(y, key, m));
  }

  /** It moves no claims on the meter. */
  lemma ExactReleaseMovesNothing(y: System, key: Key, e: string, m: string)
    requires Inv(y) && key in y.ledger.store.leases
    ensures MovedByTxn(y, ExactRelease(y, key, m), e, m) == 0.0
  {
    L.FoundUnique(y.ledger, key.leaseID, y.ledger.store.leases[key]);
    assert key == KeyOf(y.ledger.store.leases[key]);
    CommittedWithin(y, key, m);
  }

  /** And it charges nothing of any other meter. */
  lemma ExactReleaseCharges(cfg: Config, y: System, key: Key, e: string, m: string, n: string)
    requires Inv(y) && key in y.ledger.store.leases && n != m
    ensures L.ChargedAt(AfterAuthority(cfg, y, ExactRelease(y, key, m)).ledger.closed, e, n)
         == L.ChargedAt(y.ledger.closed, e, n)
  {
    var l, report := y.ledger.store.leases[key], map[m := At(CommittedOf(y, key), m)];
    CloseStep(cfg, y, ExactRelease(y, key, m), key);
    L.ChargedPut(y.ledger.closed, key, L.Closing(l, L.Charge(l.granted, report)), e, n);
    assert NonNegative(l.granted);
  }

  /** At rest, and otherwise as it was: spending, claims on the meter, charges of all others. */
  ghost predicate Quietened(y: System, z: System, e: string, m: string) {
    && Inv(z) && Quiet(z, e) && Undisturbed(y, z, e, m)
  }

  ghost predicate Undisturbed(y: System, z: System, e: string, m: string) {
    && z.committed == y.committed
    && e in y.ledger.store.budgets && e in z.ledger.store.budgets && Limits(z, e) == Limits(y, e)
    && Claims(z, e, m) == Claims(y, e, m)
    && OthersCharged(y, z, e, m)
  }

  ghost predicate OthersCharged(y: System, z: System, e: string, m: string) {
    forall n | n != m :: L.ChargedAt(z.ledger.closed, e, n) == L.ChargedAt(y.ledger.closed, e, n)
  }

  lemma ExactReleaseKeepsOthers(cfg: Config, y: System, e: string, m: string, key: Key)
    requires Inv(y) && key in y.ledger.store.leases
    ensures OthersCharged(y, AfterAuthority(cfg, y, ExactRelease(y, key, m)), e, m)
  {
    forall n | n != m { ExactReleaseCharges(cfg, y, key, e, m, n); }
  }

  lemma ExactReleaseKeepsClaims(cfg: Config, y: System, e: string, m: string, key: Key)
    requires Inv(y) && e in y.ledger.store.budgets && key in y.ledger.store.leases
    ensures var z := AfterAuthority(cfg, y, ExactRelease(y, key, m));
      e in z.ledger.store.budgets && Limits(z, e) == Limits(y, e) && Claims(z, e, m) == Claims(y, e, m)
  {
    ExactReleaseMovesNothing(y, key, e, m);
    TxnMovesClaims(cfg, y, ExactRelease(y, key, m), e, m);
    L.LimitsStay(cfg, y.ledger, ExactRelease(y, key, m), e);
  }

  /** One step towards rest. */
  ghost predicate Settles(cfg: Config, y: System, ev: Event, z: System, e: string, m: string) {
    && Admissible(y, ev) && z == Next(cfg, y, ev) && MovedBy(y, ev, e, m) <= 0.0
    && Undisturbed(y, z, e, m)
  }

  lemma OneReleased(cfg: Config, y: System, e: string, m: string, key: Key) returns (z: System)
    requires Inv(y) && e in y.ledger.store.budgets && key in LiveKeys(y.ledger.store.leases, e)
    ensures Settles(cfg, y, Authority(ExactRelease(y, key, m)), z, e, m)
    ensures Inv(z) && |LiveKeys(z.ledger.store.leases, e)| < |LiveKeys(y.ledger.store.leases, e)|
  {
    ExactReleaseCloses(cfg, y, key, m);
    ExactReleaseMovesNothing(y, key, e, m);
    ExactReleaseKeepsClaims(cfg, y, e, m, key);
    ExactReleaseKeepsOthers(cfg, y, e, m, key);
    z := AfterAuthority(cfg, y, ExactRelease(y, key, m));
    FewerLive(y.ledger.store.leases, e, key);
  }

  lemma FewerLive(leases: map<Key, Lease>, e: string, key: Key)
    requires key in LiveKeys(leases, e)
    ensures |LiveKeys(leases - {key}, e)| < |LiveKeys(leases, e)|
  {
    assert LiveKeys(leases - {key}, e) == LiveKeys(leases, e) - {key};
  }

  /** A fully charged run that brings an execution to rest. */
  ghost predicate Rests(cfg: Config, y: System, events: seq<Event>, e: string, m: string) {
    && AdmissibleRun(cfg, y, events) && FullyCharged(cfg, y, events, e, m)
    && Quietened(y, Run(cfg, y, events), e, m)
  }

  lemma NothingLive(cfg: Config, y: System, e: string, m: string)
    requires Inv(y) && e in y.ledger.store.budgets && LiveKeys(y.ledger.store.leases, e) == {}
    ensures Rests(cfg, y, [], e, m)
  {
    forall key | key in y.ledger.store.leases ensures key.executionID != e {
      assert key !in LiveKeys(y.ledger.store.leases, e);
    }
  }

  lemma SettleThenRest(cfg: Config, y: System, ev: Event, z: System, rest: seq<Event>, e: string, m: string)
    requires Settles(cfg, y, ev, z, e, m) && Rests(cfg, z, rest, e, m)
    ensures Rests(cfg, y, [ev] + rest, e, m)
  {
    assert ([ev] + rest)[0] == ev && ([ev] + rest)[1..] == rest;
    Unfold(cfg, y, [ev] + rest, e, m);
  }

  /** All live leases of an execution can be released, each with an exact report. */
  lemma {:induction false} Quieten(cfg: Config, y: System, e: string, m: string) returns (events: seq<Event>)
    requires Inv(y) && e in y.ledger.store.budgets
    ensures Rests(cfg, y, events, e, m)
    decreases |LiveKeys(y.ledger.store.leases, e)|
  {
    events := [];
    if LiveKeys(y.ledger.store.leases, e) == {} {
      NothingLive(cfg, y, e, m);
    } else {
      var key :| key in LiveKeys(y.ledger.store.leases, e);
      var z := OneReleased(cfg, y, e, m, key);
      var rest := Quieten(cfg, z, e, m);
      SettleThenRest(cfg, y, Authority(ExactRelease(y, key, m)), z, rest, e, m);
      events := [Authority(ExactRelease(y, key, m))] + rest;
    }
  }

  // When later runs can overspend.

  ghost predicate Overspends(cfg: Config, y: System, events: seq<Event>, e: string, m: string) {
    && e in y.ledger.store.budgets && AdmissibleRun(cfg, y, events) && FullyCharged(cfg, y, events, e, m)
    && SpentAt(Run(cfg, y, events), e, m) > At(Limits(y, e), m)
  }

  ghost predicate Metered(y: System, e: string, m: string) {
    e in y.ledger.store.budgets && m in Limits(y, e) && Limits(y, e)[m] > 0.0
  }

  /** Closed leases were not charged all of any other meter of the budget. */
  ghost predicate OthersLeft(y: System, e: string, m: string)
    requires e in y.ledger.store.budgets
  {
    forall n | n in Limits(y, e) && n != m :: L.ChargedAt(y.ledger.closed, e, n) < Limits(y, e)[n]
  }

  /**
   The exact condition, with any leases live: a continuation that charges every close in full can overspend a meter
   exactly when the claims on it exceed its limit. Other meters of the budget must not have been charged in full, since
   acquisition refuses when nothing remains of one of them.
   */
  lemma OverspendIff(cfg: Config, y: System, e: string, m: string)
    requires Inv(y) && Fractional(cfg) && Metered(y, e, m) && OthersLeft(y, e, m)
    ensures (exists events :: Overspends(cfg, y, events, e, m)) <==> Claims(y, e, m) > Limits(y, e)[m]
  {
    if Claims(y, e, m) > Limits(y, e)[m] {
      var events := OverspendingRun(cfg, y, e, m);
    } else {
      forall events ensures !Overspends(cfg, y, events, e, m) {
        NoOverspendingRun(cfg, y, e, m, events);
      }
    }
  }

  lemma NoOverspendingRun(cfg: Config, y: System, e: string, m: string, events: seq<Event>)
    requires Inv(y) && Metered(y, e, m) && Claims(y, e, m) <= Limits(y, e)[m]
    ensures !Overspends(cfg, y, events, e, m)
  {
    if Overspends(cfg, y, events, e, m) {
      ChargedRunKeepsBudget(cfg, y, events, e, m);
    }
  }

  lemma OverspendingRun(cfg: Config, y: System, e: string, m: string) returns (events: seq<Event>)
    requires Inv(y) && Fractional(cfg) && Metered(y, e, m) && OthersLeft(y, e, m)
    requires Claims(y, e, m) > Limits(y, e)[m]
    ensures Overspends(cfg, y, events, e, m)
  {
    var first := Quieten(cfg, y, e, m);
    var z := Run(cfg, y, first);
    var rest := SpendAtRest(cfg, y, z, e, m);
    RunConcat(cfg, y, first, rest, e, m);
    events := first + rest;
  }

  lemma SpendAtRest(cfg: Config, y: System, z: System, e: string, m: string) returns (events: seq<Event>)
    requires Quietened(y, z, e, m) && Fractional(cfg) && Metered(y, e, m) && OthersLeft(y, e, m)
    ensures AdmissibleRun(cfg, z, events) && FullyCharged(cfg, z, events, e, m)
    ensures SpentAt(Run(cfg, z, events), e, m) == Claims(y, e, m)
  {
    var x := Limits(y, e)[m];
    OpenAtRest(y, z, e, m);
    FractionOf(cfg, x);
    var k := LongEnough(z);
    var n := Enough(Fraction(cfg, x), Remaining(z, e, m));
    events := SpendRemaining(cfg, z, e, m, x, n, k);
  }

  lemma OpenAtRest(y: System, z: System, e: string, m: string)
    requires Quietened(y, z, e, m) && Metered(y, e, m) && OthersLeft(y, e, m)
    ensures Open(z, e, m, Limits(y, e)[m]) && Remaining(z, e, m) >= 0.0
    ensures Remaining(z, e, m) + SpentAt(z, e, m) == Claims(y, e, m)
  {
    QuietRemaining(z, e, m);
    QuietClaims(z, e, m);
    forall n | n in Limits(z, e) && n != m ensures Remaining(z, e, n) > 0.0 {
      QuietRemaining(z, e, n);
    }
  }

  // At rest with another meter used up, nothing more is ever leased.

  /** At rest, with nothing left of another meter. */
  ghost predicate Stuck(y: System, e: string, n: string) {
    e in y.ledger.store.budgets && n in Limits(y, e) && Quiet(y, e) && Remaining(y, e, n) <= 0.0
  }

  lemma TxnKeepsStuck(cfg: Config, y: System, op: L.Op, e: string, n: string)
    requires Inv(y) && L.Admissible(y.ledger, op) && Stuck(y, e, n)
    ensures Stuck(AfterAuthority(cfg, y, op), e, n)
  {
    var y' := AfterAuthority(cfg, y, op);
    L.LimitsStay(cfg, y.ledger, op, e);
    AuthorityKeepsInv(cfg, y, op);
    var key := StuckShape(cfg, y.ledger, op, e, n);
    StuckCharges(y.ledger, y'.ledger, key, e, n);
    QuietRemaining(y, e, n);
    QuietRemaining(y', e, n);
  }

  /** Whatever a transaction opens, renews or closes belongs to another execution. */
  lemma StuckShape(cfg: Config, g: L.Ledger, op: L.Op, e: string, n: string) returns (key: Key)
    requires L.WellFormed(g) && L.Admissible(g, op)
    requires e in g.store.budgets && n in g.store.budgets[e].limits && At(g.store.budgets[e].remaining, n) <= 0.0
    requires forall key | key in g.store.leases :: key.executionID != e
    ensures var g' := L.Step(cfg, g, op);
      && (forall k | k in g'.store.leases :: k.executionID != e)
      && (g'.closed == g.closed || (L.Closes(g, g', key) && key.executionID != e))
  {
    key := L.StepShape(cfg, g, op);
    if op.Acquire? && op.req.executionID == e {
      assert AcquireRefusal(g.store, op.req).Some?;
    }
  }

  lemma StuckCharges(g: L.Ledger, g': L.Ledger, key: Key, e: string, n: string)
    requires g'.closed == g.closed || (L.Closes(g, g', key) && key.executionID != e)
    ensures L.ChargedAt(g'.closed, e, n) == L.ChargedAt(g.closed, e, n)
  {
    if g'.closed != g.closed {
      L.ChargedPut(g.closed, key, g'.closed[key], e, n);
    }
  }

  lemma CallKeepsSpent(cfg: Config, y: System, r: string, call: Runs.Op, e: string, m: string)
    requires Inv(y) && Admissible(y, Local(r, call)) && Quiet(y, e) && MovedByCall(y, r, call, e, m) <= 0.0
    ensures SpentAt(AfterLocal(y, r, call), e, m) == SpentAt(y, e, m)
  {
    var s, y' := y.replicas[r], AfterLocal(y, r, call);
    if call.Commit? && IsOpen(s, call.id) && s.lease.Some? {
      var key := KeyOf(s.lease.value);
      var v := s.reservations[call.id].values;
      assert ReplicaOk(y, r);
      assert NonNegative(v);
      assert key.executionID == e ==> key in y.ledger.closed;
      SpentPut(y.committed, key, Add(CommittedOf(y, key), v), e, m);
    }
  }

  lemma SpentPut(committed: map<Key, Meters>, key: Key, c: Meters, e: string, m: string)
    requires key.executionID == e ==> At(c, m) == At(Recorded(committed, key), m)
    ensures Sum(SpentSlice(committed[key := c], e, m)) == Sum(SpentSlice(committed, e, m))
  {
    var v := if key.executionID == e then At(c, m) else 0.0;
    assert SpentSlice(committed[key := c], e, m) == SpentSlice(committed, e, m)[key := v];
    SumPut(SpentSlice(committed, e, m), key, v);
  }

  lemma StepKeepsStuck(cfg: Config, y: System, ev: Event, e: string, n: string, m: string)
    requires Inv(y) && Admissible(y, ev) && Stuck(y, e, n) && MovedBy(y, ev, e, m) <= 0.0
    ensures Stuck(Next(cfg, y, ev), e, n) && SpentAt(Next(cfg, y, ev), e, m) == SpentAt(y, e, m)
  {
    match ev
    case Authority(op) => TxnKeepsStuck(cfg, y, op, e, n);
    case Local(r, call) => CallKeepsSpent(cfg, y, r, call, e, m);
    case _ =>
  }

  lemma {:induction false} RunKeepsStuck(cfg: Config, y: System, events: seq<Event>, e: string, n: string, m: string)
    requires Inv(y) && AdmissibleRun(cfg, y, events) && FullyCharged(cfg, y, events, e, m) && Stuck(y, e, n)
    ensures SpentAt(Run(cfg, y, events), e, m) == SpentAt(y, e, m)
    decreases |events|
  {
    if events != [] {
      StepKeepsStuck(cfg, y, events[0], e, n, m);
      StepKeepsInv(cfg, y, events[0]);
      RunKeepsStuck(cfg, Next(cfg, y, events[0]), events[1..], e, n, m);
    }
  }

  /** At rest the condition is exact for every budget, whatever is left of its other meters. */
  lemma OverspendAtRestIff(cfg: Config, y: System, e: string, m: string)
    requires Inv(y) && Fractional(cfg) && Metered(y, e, m) && Quiet(y, e)
    ensures (exists events :: Overspends(cfg, y, events, e, m)) <==>
      || SpentAt(y, e, m) > Limits(y, e)[m]
      || (Claims(y, e, m) > Limits(y, e)[m] && forall n | n in Limits(y, e) && n != m :: Remaining(y, e, n) > 0.0)
  {
    if SpentAt(y, e, m) > Limits(y, e)[m] {
      assert Overspends(cfg, y, [], e, m);
    } else if n :| n in Limits(y, e) && n != m && Remaining(y, e, n) <= 0.0 {
      forall events ensures !Overspends(cfg, y, events, e, m) {
        if Overspends(cfg, y, events, e, m) { RunKeepsStuck(cfg, y, events, e, n, m); }
      }
    } else {
      forall n | n in Limits(y, e) && n != m { QuietRemaining(y, e, n); }
      OverspendIff(cfg, y, e, m);
    }
  }

  // With a lease live, whatever is left of other meters.

  /** Live leases of the execution are granted something, or nothing, of every meter of the budget. */
  ghost predicate Whole(g: L.Ledger, e: string) {
    e in g.store.budgets ==>
      forall key | key in g.store.leases && key.executionID == e ::
        g.store.budgets[e].limits.Keys <= g.store.leases[key].granted.Keys
  }

  lemma RenewKeepsWhole(cfg: Config, g: L.Ledger, leaseID: string, hint: Meters, now: Time, e: string)
    requires L.WellFormed(g) && Whole(g, e)
    ensures Whole(L.Step(cfg, g, L.Renew(leaseID, hint, now)), e)
  {
    var found := L.FindById(g.store, leaseID);
    if found.Some? && found.value.executionID != "" {
      var l := L.RenewShape(cfg, g.store, found.value, hint, now);
    }
  }

  lemma CloseKeepsWhole(g: L.Ledger, l: Lease, consumed: Meters, e: string)
    requires Whole(g, e)
    ensures Whole(L.Close(g, l, consumed), e)
  {
  }

  lemma AcquireKeepsWhole(cfg: Config, g: L.Ledger, req: LeaseRequest, leaseID: string, now: Time, e: string)
    requires Whole(g, e) && AcquireRefusal(g.store, req).None?
    ensures Whole(g.(store := Acquired(cfg, g.store, req, leaseID, now)), e)
  {
  }

  lemma CreateKeepsWhole(cfg: Config, g: L.Ledger, op: L.Op, e: string)
    requires L.WellFormed(g) && L.Admissible(g, op) && op.Create? && Whole(g, e)
    ensures Whole(L.Step(cfg, g, op), e)
  {
  }

  lemma TxnKeepsWhole(cfg: Config, g: L.Ledger, op: L.Op, e: string)
    requires L.WellFormed(g) && L.Admissible(g, op) && Whole(g, e)
    ensures Whole(L.Step(cfg, g, op), e)
  {
    match op
    case Create(_, _) => CreateKeepsWhole(cfg, g, op, e);
    case Acquire(req, leaseID, now) =>
      if AcquireRefusal(g.store, req).None? { AcquireKeepsWhole(cfg, g, req, leaseID, now, e); }
    case Renew(leaseID, hint, now) => RenewKeepsWhole(cfg, g, leaseID, hint, now, e);
    case Release(leaseID, consumed) =>
      var found := L.FindById(g.store, leaseID);
      if found.Some? { CloseKeepsWhole(g, found.value, consumed, e); }
    case Reclaim(expired, now) =>
      var key := KeyOf(expired);
      if key in g.store.leases && g.store.leases[key].expiresAt <= now {
        CloseKeepsWhole(g, g.store.leases[key], g.store.leases[key].consumed, e);
      }
    case Bump(_) =>
  }

  lemma StepKeepsWhole(cfg: Config, y: System, ev: Event, e: string)
    requires L.WellFormed(y.ledger) && Admissible(y, ev) && Whole(y.ledger, e)
    ensures Whole(Next(cfg, y, ev).ledger, e)
  {
    match ev
    case Authority(op) => TxnKeepsWhole(cfg, y.ledger, op, e);
    case _ => assert Next(cfg, y, ev).ledger == y.ledger;
  }

  lemma {:induction false} RunKeepsWhole(cfg: Config, y: System, events: seq<Event>, e: string)
    requires Inv(y) && AdmissibleRun(cfg, y, events) && Whole(y.ledger, e)
    ensures Whole(Run(cfg, y, events).ledger, e)
    decreases |events|
  {
    if events != [] {
      StepKeepsWhole(cfg, y, events[0], e);
      StepKeepsInv(cfg, y, events[0]);
      RunKeepsWhole(cfg, Next(cfg, y, events[0]), events[1..], e);
    }
  }

  /** Exact for one meter, and less than nothing for the others, of which it gives back more than the grant. */
  function Report(limits: Meters, m: string, committed: real): Meters {
    map n | n in limits :: if n == m then committed else -1.0
  }

  ghost function Reviving(y: System, key: Key, m: string): L.Op
    requires key.executionID in y.ledger.store.budgets
  {
    L.Release(key.leaseID, Report(Limits(y, key.executionID), m, At(CommittedOf(y, key), m)))
  }

  lemma RevivingCloses(cfg: Config, y: System, key: Key, m: string)
    requires Inv(y) && key in y.ledger.store.leases && Metered(y, key.executionID, m)
    ensures Closes(y, Reviving(y, key, m), key) && MovedByTxn(y, Reviving(y, key, m), key.executionID, m) == 0.0
  {
    assert key == KeyOf(y.ledger.store.leases[key]);
    L.FoundUnique(y.ledger, key.leaseID, y.ledger.store.leases[key]);
    CommittedWithin(y, key, m);
  }

  lemma RevivingLeaves(cfg: Config, y: System, key: Key, m: string, n: string)
    requires Inv(y) && key in y.ledger.store.leases
    requires Metered(y, key.executionID, m) && Whole(y.ledger, key.executionID)
    requires n in Limits(y, key.executionID) && n != m
    ensures var z := AfterAuthority(cfg, y, Reviving(y, key, m));
      key.executionID in z.ledger.store.budgets && Remaining(z, key.executionID, n) > 0.0
  {
    var e, l := key.executionID, y.ledger.store.leases[key];
    var report := Report(Limits(y, e), m, At(CommittedOf(y, key), m));
    assert key == KeyOf(l);
    CloseStep(cfg, y, Reviving(y, key, m), key);
    CloseRemaining(y.ledger.store, l, report, e, n);
    assert L.Balanced(y.ledger, e, n);
    assert n in l.granted && NonNegative(l.granted);
    assert Credit(l.granted, report)[n] >= l.granted[n] + 1.0;
  }

  lemma RemainingLeft(y: System, e: string, m: string)
    requires Inv(y) && e in y.ledger.store.budgets
    requires forall n | n in Limits(y, e) && n != m :: Remaining(y, e, n) > 0.0
    ensures OthersLeft(y, e, m)
  {
    forall n | n in Limits(y, e) && n != m ensures L.ChargedAt(y.ledger.closed, e, n) < Limits(y, e)[n] {
      assert L.Balanced(y.ledger, e, n);
      LiveNonNegative(y.ledger.store.leases, e, n);
    }
  }

  lemma LiveNonNegative(leases: map<Key, Lease>, e: string, m: string)
    requires forall key | key in leases :: NonNegative(leases[key].granted)
    ensures L.LiveAt(leases, e, m) >= 0.0
  {
    forall key | key in leases ensures At(leases[key].granted, m) >= 0.0 {
      assert NonNegative(leases[key].granted);
    }
    SumNonNegative(L.LiveSlice(leases, e, m));
  }

  lemma RevivedClaims(cfg: Config, y: System, key: Key, m: string)
    requires Inv(y) && key in y.ledger.store.leases && Metered(y, key.executionID, m)
    ensures var z := AfterAuthority(cfg, y, Reviving(y, key, m));
      && key.executionID in z.ledger.store.budgets && Limits(z, key.executionID) == Limits(y, key.executionID)
      && Claims(z, key.executionID, m) == Claims(y, key.executionID, m)
  {
    RevivingCloses(cfg, y, key, m);
    L.LimitsStay(cfg, y.ledger, Reviving(y, key, m), key.executionID);
    TxnMovesClaims(cfg, y, Reviving(y, key, m), key.executionID, m);
  }

  lemma Revived(cfg: Config, y: System, key: Key, m: string) returns (z: System)
    requires Inv(y) && key in y.ledger.store.leases
    requires Metered(y, key.executionID, m) && Whole(y.ledger, key.executionID)
    ensures z == AfterAuthority(cfg, y, Reviving(y, key, m)) && Inv(z)
    ensures key.executionID in z.ledger.store.budgets && Limits(z, key.executionID) == Limits(y, key.executionID)
    ensures OthersLeft(z, key.executionID, m) && Claims(z, key.executionID, m) == Claims(y, key.executionID, m)
  {
    RevivedClaims(cfg, y, key, m);
    AuthorityKeepsInv(cfg, y, Reviving(y, key, m));
    z := AfterAuthority(cfg, y, Reviving(y, key, m));
    forall n | n in Limits(z, key.executionID) && n != m { RevivingLeaves(cfg, y, key, m, n); }
    RemainingLeft(z, key.executionID, m);
  }

  lemma RevivedOverspends(cfg: Config, y: System, key: Key, m: string) returns (events: seq<Event>)
    requires Inv(y) && key in y.ledger.store.leases
    requires Metered(y, key.executionID, m) && Whole(y.ledger, key.executionID)
    requires Fractional(cfg) && Claims(y, key.executionID, m) > Limits(y, key.executionID)[m]
    ensures Overspends(cfg, y, events, key.executionID, m)
  {
    var release := Authority(Reviving(y, key, m));
    RevivingCloses(cfg, y, key, m);
    var z := Revived(cfg, y, key, m);
    var rest := OverspendingRun(cfg, z, key.executionID, m);
    events := [release] + rest;
    assert events[0] == release && events[1..] == rest;
    Unfold(cfg, y, events, key.executionID, m);
  }

  /** Something is left of every other meter, or can be given back by a lease that is live. */
  ghost predicate Leasable(y: System, e: string, m: string)
    requires e in y.ledger.store.budgets
  {
    !Quiet(y, e) || forall n | n in Limits(y, e) && n != m :: Remaining(y, e, n) > 0.0
  }

  /**
   The exact condition without any hypothesis on other meters: overspent already, or claims above the limit and
   something to lease. Where nothing is left of another meter, a report of negative consumption, which the authority
   does not refuse, makes acquisition possible again.
   */
  lemma OverspendAnywhereIff(cfg: Config, y: System, e: string, m: string)
    requires Inv(y) && Whole(y.ledger, e) && Fractional(cfg) && Metered(y, e, m)
    ensures (exists events :: Overspends(cfg, y, events, e, m)) <==>
      SpentAt(y, e, m) > Limits(y, e)[m] || (Claims(y, e, m) > Limits(y, e)[m] && Leasable(y, e, m))
  {
    if Quiet(y, e) {
      OverspendAtRestIff(cfg, y, e, m);
    } else if Claims(y, e, m) > Limits(y, e)[m] {
      var key :| key in y.ledger.store.leases && key.executionID == e;
      var events := RevivedOverspends(cfg, y, key, m);
    } else {
      SpentWithinClaims(y, e, m);
      forall events ensures !Overspends(cfg, y, events, e, m) {
        NoOverspendingRun(cfg, y, e, m, events);
      }
    }
  }

  /** In particular in every reachable state. */
  lemma ReachableOverspendIff(cfg: Config, past: seq<Event>, e: string, m: string)
    requires Fractional(cfg) && AdmissibleRun(cfg, START, past) && Metered(Run(cfg, START, past), e, m)
    ensures var y := Run(cfg, START, past);
      (exists events :: Overspends(cfg, y, events, e, m)) <==>
        SpentAt(y, e, m) > Limits(y, e)[m] || (Claims(y, e, m) > Limits(y, e)[m] && Leasable(y, e, m))
  {
    RunKeepsInv(cfg, START, past);
    RunKeepsWhole(cfg, START, past, e);
    OverspendAnywhereIff(cfg, Run(cfg, START, past), e, m);
  }

  /**
   So closing a lease of a fully claimed meter lets later runs overspend exactly when it is charged less than was
   committed under it, by a release that under-reports or by a sweep of anything that was spent, and something can
   still be leased.
   */
  lemma CloseOverspendIff(cfg: Config, y: System, op: L.Op, key: Key, m: string)
    requires Inv(y) && Whole(y.ledger, key.executionID) && Closes(y, op, key)
    requires Fractional(cfg) && Metered(y, key.executionID, m)
    requires Claims(y, key.executionID, m) == Limits(y, key.executionID)[m]
    ensures var z := AfterAuthority(cfg, y, op);
      && key.executionID in z.ledger.store.budgets
      && ((exists events :: Overspends(cfg, z, events, key.executionID, m)) <==>
            At(CommittedOf(y, key), m) > At(ChargeOf(y, op, key), m) && Leasable(z, key.executionID, m))
  {
    var e, z := key.executionID, AfterAuthority(cfg, y, op);
    CloseMovesClaims(cfg, y, op, key, m);
    SpentWithinClaims(y, e, m);
    AuthorityKeepsInv(cfg, y, op);
    TxnKeepsWhole(cfg, y.ledger, op, e);
    L.LimitsStay(cfg, y.ledger, op, e);
    OverspendAnywhereIff(cfg, z, e, m);
  }
}
