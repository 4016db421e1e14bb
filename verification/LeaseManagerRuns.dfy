/**
 What every sequence of lease-manager operations keeps: no local overspend, identifiers used once, reservations
 committed at most once, holds that never end, and an account of where every reserved quantity went.
 */
module LeaseManagerRuns {
  import opened Results
  import opened Meters
  import opened LeaseManager

  datatype Op =
    | Reserve(executionID: string, values: Meters)
    | Commit(id: nat)
    | Release(id: nat)
    | Hold(id: nat)
    | Refresh(lease: Option<Lease>)

  /** The abstract effect of one call, refused calls included. */
  ghost function Step(s: State, op: Op): State {
    match op
    case Reserve(executionID, values) => if CanReserve(s, executionID, values) then Reserved(s, values) else s
    case Commit(id) => if CommitDefined(s, id) then Committed(s, id) else s
    case Release(id) => Released(s, id)
    case Hold(id) => HeldBack(s, id)
    case Refresh(lease) => s.(lease := lease)
  }

  ghost function Run(s: State, ops: seq<Op>): State
    decreases |ops|
  {
    if ops == [] then s else Run(Step(s, ops[0]), ops[1..])
  }

  /** A replacement lease that leaves room for what is already consumed and open. */
  ghost predicate Covers(lease: Lease, reservations: map<nat, Reservation>) {
    forall meter :: At(lease.consumed, meter) + OpenAt(reservations, meter) <= At(lease.granted, meter)
  }

  /** Requested values are not negative, and a replacement lease covers the open reservations. */
  ghost predicate Admissible(s: State, op: Op) {
    match op
    case Reserve(_, values) => NonNegative(values)
    case Commit(id) => CommitDefined(s, id)
    case Refresh(Some(lease)) => Covers(lease, s.reservations)
    case _ => true
  }

  ghost predicate AdmissibleRun(s: State, ops: seq<Op>)
    decreases |ops|
  {
    ops == [] || (Admissible(s, ops[0]) && AdmissibleRun(Step(s, ops[0]), ops[1..]))
  }

  ghost predicate Numbered(s: State) {
    forall id | id in s.reservations :: 1 <= id <= s.nextID
  }

  ghost predicate Sound(s: State) {
    && Numbered(s)
    && (forall id | id in s.reservations :: NonNegative(s.reservations[id].values))
    && (s.lease.Some? ==> Covers(s.lease.value, s.reservations))
  }

  lemma OpenNonNegative(reservations: map<nat, Reservation>, meter: string)
    requires forall id | id in reservations :: NonNegative(reservations[id].values)
    ensures OpenAt(reservations, meter) >= 0.0
  {
    SumNonNegative(Slice(reservations, meter));
  }

  lemma ReserveKeepsSound(s: State, executionID: string, values: Meters)
    requires Sound(s) && NonNegative(values) && CanReserve(s, executionID, values)
    ensures Sound(Reserved(s, values))
  {
    var t := Reserved(s, values);
    forall meter
      ensures At(t.lease.value.consumed, meter) + OpenAt(t.reservations, meter) <= At(t.lease.value.granted, meter)
    {
      OpenAtPut(s.reservations, s.nextID + 1, Reservation(values, false), meter);
      assert At(s.lease.value.consumed, meter) + OpenAt(s.reservations, meter) <= At(s.lease.value.granted, meter);
      if meter in values {
        assert Available(s, meter) >= values[meter];
      }
    }
  }

  lemma CommitKeepsSound(s: State, id: nat)
    requires Sound(s) && CommitDefined(s, id)
    ensures Sound(Committed(s, id))
  {
    var t := Committed(s, id);
    if IsOpen(s, id) && s.lease.Some? {
      forall meter
        ensures At(t.lease.value.consumed, meter) + OpenAt(t.reservations, meter) <= At(t.lease.value.granted, meter)
      {
        OpenAtRemove(s.reservations, id, meter);
      }
    }
  }

  lemma ReleaseKeepsSound(s: State, id: nat)
    requires Sound(s)
    ensures Sound(Released(s, id))
  {
    if IsOpen(s, id) && s.lease.Some? {
      forall meter
        ensures At(s.lease.value.consumed, meter) + OpenAt(s.reservations - {id}, meter)
             <= At(s.lease.value.granted, meter)
      {
        OpenAtRemove(s.reservations, id, meter);
      }
    }
  }

  lemma HoldKeepsOpen(s: State, id: nat, meter: string)
    ensures OpenAt(HeldBack(s, id).reservations, meter) == OpenAt(s.reservations, meter)
  {
    if id in s.reservations {
      OpenAtPut(s.reservations, id, s.reservations[id].(held := true), meter);
    }
  }

  lemma StepKeepsSound(s: State, op: Op)
    requires Sound(s) && Admissible(s, op)
    ensures Sound(Step(s, op))
  {
    match op
    case Reserve(executionID, values) =>
      if CanReserve(s, executionID, values) { ReserveKeepsSound(s, executionID, values); }
    case Commit(id) => CommitKeepsSound(s, id);
    case Release(id) => ReleaseKeepsSound(s, id);
    case Hold(id) =>
      forall meter { HoldKeepsOpen(s, id, meter); }
    case Refresh(_) =>
  }

  /** Consumed plus open never exceeds granted, after any admissible sequence of calls. */
  lemma {:induction false} NoLocalOverspend(s: State, ops: seq<Op>)
    requires Sound(s) && AdmissibleRun(s, ops)
    ensures Sound(Run(s, ops))
    ensures Run(s, ops).lease.Some? ==>
      forall meter :: Available(Run(s, ops), meter) >= 0.0
                   && At(Run(s, ops).lease.value.consumed, meter) <= At(Run(s, ops).lease.value.granted, meter)
    decreases |ops|
  {
    if ops == [] {
      if s.lease.Some? {
        forall meter
          ensures Available(s, meter) >= 0.0 && At(s.lease.value.consumed, meter) <= At(s.lease.value.granted, meter)
        {
          OpenNonNegative(s.reservations, meter);
          assert At(s.lease.value.consumed, meter) + OpenAt(s.reservations, meter) <= At(s.lease.value.granted, meter);
        }
      }
    } else {
      StepKeepsSound(s, ops[0]);
      NoLocalOverspend(Step(s, ops[0]), ops[1..]);
    }
  }

  /** An identifier that was handed out and is no longer open: committed or released. */
  ghost predicate Settled(s: State, id: nat) {
    id <= s.nextID && id !in s.reservations
  }

  /** A settled identifier stays settled: it is never handed out again and never commits again. */
  lemma {:induction false} SettledForever(s: State, ops: seq<Op>, id: nat)
    requires Settled(s, id)
    ensures Settled(Run(s, ops), id) && Run(s, ops).nextID >= s.nextID
    decreases |ops|
  {
    if ops != [] {
      SettledForever(Step(s, ops[0]), ops[1..], id);
    }
  }

  /** Once held, a reservation stays open with its values, whatever is called afterwards. */
  lemma {:induction false} HeldForever(s: State, ops: seq<Op>, id: nat)
    requires Numbered(s) && id in s.reservations && s.reservations[id].held
    ensures id in Run(s, ops).reservations && Run(s, ops).reservations[id] == s.reservations[id]
    decreases |ops|
  {
    if ops != [] {
      HeldForever(Step(s, ops[0]), ops[1..], id);
    }
  }

  lemma {:induction false} RunSplit(s: State, ops: seq<Op>, i: nat)
    requires i <= |ops|
    ensures Run(s, ops) == Run(Run(s, ops[..i]), ops[i..])
    decreases i
  {
    if i == 0 {
      assert ops[0..] == ops;
    } else {
      RunSplit(Step(s, ops[0]), ops[1..], i - 1);
      assert ops[1..][..i - 1] == ops[..i][1..];
      assert ops[1..][i - 1..] == ops[i..];
    }
  }

  lemma {:induction false} StaysNumbered(s: State, ops: seq<Op>)
    requires Numbered(s)
    ensures Numbered(Run(s, ops))
    decreases |ops|
  {
    if ops != [] {
      StaysNumbered(Step(s, ops[0]), ops[1..]);
    }
  }

  /**
   Two successful calls in one run never settle or open the same identifier: the reservation opened by call i
   differs from the one opened by call j, and what call i commits, call j cannot.
   */
  lemma IdentifiersUsedOnce(s: State, ops: seq<Op>, i: nat, j: nat)
    requires Numbered(s) && i < j < |ops|
    ensures var before, later := Run(s, ops[..i]), Run(s, ops[..j]);
      && (ops[i].Reserve? && CanReserve(before, ops[i].executionID, ops[i].values) ==>
            before.nextID + 1 < later.nextID + 1)
      && (ops[i].Commit? && CommitDefined(before, ops[i].id) && IsOpen(before, ops[i].id) ==>
            !IsOpen(later, ops[i].id))
  {
    var before, later := Run(s, ops[..i]), Run(s, ops[..j]);
    RunSplit(s, ops[..j], i);
    assert ops[..j][..i] == ops[..i] && ops[..j][i..] == ops[i..j];
    assert later == Run(before, ops[i..j]);
    assert ops[i..j][0] == ops[i] && ops[i..j][1..] == ops[i + 1..j];
    StaysNumbered(s, ops[..i]);
    var after := Step(before, ops[i]);
    assert later == Run(after, ops[i + 1..j]);
    assert 0 <= after.nextID && Settled(after, 0);
    SettledForever(after, ops[i + 1..j], 0);
    if ops[i].Commit? && CommitDefined(before, ops[i].id) && IsOpen(before, ops[i].id) {
      SettledForever(after, ops[i + 1..j], ops[i].id);
    }
  }

  // Where reserved quantities go.

  ghost function ReservedIn(s: State, ops: seq<Op>, meter: string): real
    decreases |ops|
  {
    if ops == [] then 0.0 else
      (if ops[0].Reserve? && CanReserve(s, ops[0].executionID, ops[0].values) then At(ops[0].values, meter) else 0.0)
      + ReservedIn(Step(s, ops[0]), ops[1..], meter)
  }

  ghost function CommittedIn(s: State, ops: seq<Op>, meter: string): real
    decreases |ops|
  {
    if ops == [] then 0.0 else
      (if ops[0].Commit? && CommitDefined(s, ops[0].id) && IsOpen(s, ops[0].id)
       then At(s.reservations[ops[0].id].values, meter) else 0.0)
      + CommittedIn(Step(s, ops[0]), ops[1..], meter)
  }

  ghost function ReleasedIn(s: State, ops: seq<Op>, meter: string): real
    decreases |ops|
  {
    if ops == [] then 0.0 else
      (if ops[0].Release? && IsOpen(s, ops[0].id) then At(s.reservations[ops[0].id].values, meter) else 0.0)
      + ReleasedIn(Step(s, ops[0]), ops[1..], meter)
  }

  ghost predicate SameLease(ops: seq<Op>) {
    forall op | op in ops :: !op.Refresh?
  }

  lemma StepAccount(s: State, op: Op, meter: string)
    requires Numbered(s)
    ensures Numbered(Step(s, op))
    ensures OpenAt(s.reservations, meter) + ReservedIn(s, [op], meter)
         == OpenAt(Step(s, op).reservations, meter) + CommittedIn(s, [op], meter) + ReleasedIn(s, [op], meter)
    ensures s.lease.Some? && !op.Refresh? ==>
      && Step(s, op).lease.Some?
      && Step(s, op).lease.value.granted == s.lease.value.granted
      && At(Step(s, op).lease.value.consumed, meter) == At(s.lease.value.consumed, meter) + CommittedIn(s, [op], meter)
  {
    match op
    case Reserve(_, values) => OpenAtPut(s.reservations, s.nextID + 1, Reservation(values, false), meter);
    case Commit(id) => if IsOpen(s, id) { OpenAtRemove(s.reservations, id, meter); }
    case Release(id) => if IsOpen(s, id) { OpenAtRemove(s.reservations, id, meter); }
    case Hold(id) => HoldKeepsOpen(s, id, meter);
    case Refresh(_) =>
  }

  lemma OneStep(s: State, op: Op, rest: seq<Op>, meter: string)
    ensures ReservedIn(s, [op] + rest, meter) == ReservedIn(s, [op], meter) + ReservedIn(Step(s, op), rest, meter)
    ensures CommittedIn(s, [op] + rest, meter) == CommittedIn(s, [op], meter) + CommittedIn(Step(s, op), rest, meter)
    ensures ReleasedIn(s, [op] + rest, meter) == ReleasedIn(s, [op], meter) + ReleasedIn(Step(s, op), rest, meter)
  {
    var ops := [op] + rest;
    assert ops[0] == op && ops[1..] == rest;
    assert [op][1..] == [];
  }

  /** Conservation: what was open or got reserved is committed, released or still open at the end. */
  lemma {:induction false} ReservationsConserved(s: State, ops: seq<Op>, meter: string)
    requires Numbered(s)
    ensures OpenAt(s.reservations, meter) + ReservedIn(s, ops, meter)
         == OpenAt(Run(s, ops).reservations, meter) + CommittedIn(s, ops, meter) + ReleasedIn(s, ops, meter)
    decreases |ops|
  {
    if ops != [] {
      StepAccount(s, ops[0], meter);
      assert ops == [ops[0]] + ops[1..];
      OneStep(s, ops[0], ops[1..], meter);
      ReservationsConserved(Step(s, ops[0]), ops[1..], meter);
    }
  }

  /** With one lease, consumed grows by exactly what is committed. */
  lemma {:induction false} ConsumedIsCommitted(s: State, ops: seq<Op>, meter: string)
    requires Numbered(s) && s.lease.Some?
    requires SameLease(ops)
    ensures Run(s, ops).lease.Some?
    ensures At(Run(s, ops).lease.value.consumed, meter)
         == At(s.lease.value.consumed, meter) + CommittedIn(s, ops, meter)
    ensures Run(s, ops).lease.value.granted == s.lease.value.granted
    decreases |ops|
  {
    if ops != [] {
      StepAccount(s, ops[0], meter);
      assert ops == [ops[0]] + ops[1..];
      OneStep(s, ops[0], ops[1..], meter);
      ConsumedIsCommitted(Step(s, ops[0]), ops[1..], meter);
    }
  }

  /** Spending already done, plus anything the lease still lets through, stays within its grant. */
  ghost predicate SafeFrom(s: State, spent: Meters)
    requires s.lease.Some?
  {
    forall ops: seq<Op>, meter: string | AdmissibleRun(s, ops) && SameLease(ops) ::
      At(spent, meter) + CommittedIn(s, ops, meter) <= At(s.lease.value.granted, meter)
  }

  // Held reservations can never be spent, so they count in favour of a replacement lease.

  ghost function HeldSlice(reservations: map<nat, Reservation>, meter: string): map<nat, real> {
    map id | id in reservations :: if reservations[id].held then At(reservations[id].values, meter) else 0.0
  }

  ghost function HeldAt(reservations: map<nat, Reservation>, meter: string): real {
    Sum(HeldSlice(reservations, meter))
  }

  lemma HeldPut(reservations: map<nat, Reservation>, id: nat, r: Reservation, meter: string)
    ensures HeldAt(reservations[id := r], meter) == HeldAt(reservations, meter)
      + (if r.held then At(r.values, meter) else 0.0)
      - (if id in reservations && reservations[id].held then At(reservations[id].values, meter) else 0.0)
  {
    var v := if r.held then At(r.values, meter) else 0.0;
    assert HeldSlice(reservations[id := r], meter) == HeldSlice(reservations, meter)[id := v];
    SumPut(HeldSlice(reservations, meter), id, v);
  }

  lemma HeldRemoveOpen(reservations: map<nat, Reservation>, id: nat, meter: string)
    requires id in reservations && !reservations[id].held
    ensures HeldAt(reservations - {id}, meter) == HeldAt(reservations, meter)
  {
    assert HeldSlice(reservations - {id}, meter) == HeldSlice(reservations, meter) - {id};
    SumRemove(HeldSlice(reservations, meter), id);
  }

  lemma HeldWithinOpen(reservations: map<nat, Reservation>, meter: string)
    requires forall id | id in reservations :: NonNegative(reservations[id].values)
    ensures HeldAt(reservations, meter) <= OpenAt(reservations, meter)
    ensures (forall id | id in reservations :: reservations[id].held) ==>
            HeldAt(reservations, meter) == OpenAt(reservations, meter)
  {
    SumMonotone(HeldSlice(reservations, meter), Slice(reservations, meter));
    if forall id | id in reservations :: reservations[id].held {
      SumMonotone(Slice(reservations, meter), HeldSlice(reservations, meter));
    }
  }

  lemma {:induction false} HeldGrows(s: State, ops: seq<Op>, meter: string)
    requires Sound(s) && AdmissibleRun(s, ops)
    ensures HeldAt(s.reservations, meter) <= HeldAt(Run(s, ops).reservations, meter)
    decreases |ops|
  {
    if ops != [] {
      var t := Step(s, ops[0]);
      match ops[0] {
        case Reserve(_, values) => HeldPut(s.reservations, s.nextID + 1, Reservation(values, false), meter);
        case Commit(id) => if IsOpen(s, id) { HeldRemoveOpen(s.reservations, id, meter); }
        case Release(id) => if IsOpen(s, id) { HeldRemoveOpen(s.reservations, id, meter); }
        case Hold(id) =>
          if id in s.reservations { HeldPut(s.reservations, id, s.reservations[id].(held := true), meter); }
        case Refresh(_) =>
      }
      StepKeepsSound(s, ops[0]);
      HeldGrows(t, ops[1..], meter);
    }
  }

  /** Everything a lease can still commit can be committed: settle what is open, then reserve and commit the rest. */
  lemma {:induction false} SpendTheRest(s: State, meter: string) returns (ops: seq<Op>)
    requires Sound(s) && s.lease.Some?
    ensures AdmissibleRun(s, ops) && SameLease(ops)
    ensures CommittedIn(s, ops, meter) ==
            At(s.lease.value.granted, meter) - At(s.lease.value.consumed, meter) - HeldAt(s.reservations, meter)
    decreases |s.reservations|
  {
    if id :| id in s.reservations && !s.reservations[id].held {
      var commit := Commit(id);
      var t := Step(s, commit);
      assert t == Committed(s, id);
      CommitKeepsSound(s, id);
      HeldRemoveOpen(s.reservations, id, meter);
      var rest := SpendTheRest(t, meter);
      ops := [commit] + rest;
      OneStep(s, commit, rest, meter);
      StepAccount(s, commit, meter);
      assert ops[0] == commit && ops[1..] == rest;
    } else {
      HeldWithinOpen(s.reservations, meter);
      ops := SpendAvailable(s, meter);
    }
  }

  lemma SpendAvailable(s: State, meter: string) returns (ops: seq<Op>)
    requires Sound(s) && s.lease.Some?
    ensures AdmissibleRun(s, ops) && SameLease(ops)
    ensures CommittedIn(s, ops, meter) == Available(s, meter)
  {
    var l := s.lease.value;
    var values := map[meter := Available(s, meter)];
    assert At(l.consumed, meter) + OpenAt(s.reservations, meter) <= At(l.granted, meter);
    var reserve, commit := Reserve(l.executionID, values), Commit(s.nextID + 1);
    ops := [reserve, commit];
    assert CanReserve(s, l.executionID, values);
    var t := Step(s, reserve);
    assert t == Reserved(s, values);
    assert ops[1..] == [commit] && ops[1..][1..] == [] && [commit][1..] == [];
    assert AdmissibleRun(t, [commit]);
    OneStep(s, reserve, [commit], meter);
    assert ops == [reserve] + [commit];
  }

  /**
   Installing a covering lease is safe exactly when the consumed quantities it carries, together with the holds that
   can never be spent, account for what was already spent. The lease the control plane returns from a renewal
   carries zeros, so without holds it passes only while nothing was spent.
   */
  lemma RefreshSafeIff(s: State, lease: Lease, spent: Meters)
    requires Sound(s) && Covers(lease, s.reservations)
    ensures SafeFrom(Step(s, Refresh(Some(lease))), spent) <==>
            forall meter :: At(spent, meter) <= At(lease.consumed, meter) + HeldAt(s.reservations, meter)
  {
    var t := Step(s, Refresh(Some(lease)));
    if forall meter :: At(spent, meter) <= At(lease.consumed, meter) + HeldAt(s.reservations, meter) {
      forall ops: seq<Op>, meter: string | AdmissibleRun(t, ops) && SameLease(ops)
        ensures At(spent, meter) + CommittedIn(t, ops, meter) <= At(lease.granted, meter)
      {
        var u := Run(t, ops);
        ConsumedIsCommitted(t, ops, meter);
        NoLocalOverspend(t, ops);
        HeldGrows(t, ops, meter);
        HeldWithinOpen(u.reservations, meter);
        assert At(u.lease.value.consumed, meter) + OpenAt(u.reservations, meter) <= At(u.lease.value.granted, meter);
      }
    }
    if SafeFrom(t, spent) {
      forall meter ensures At(spent, meter) <= At(lease.consumed, meter) + HeldAt(s.reservations, meter) {
        var ops := SpendTheRest(t, meter);
        assert At(spent, meter) + CommittedIn(t, ops, meter) <= At(lease.granted, meter);
      }
    }
  }
}
