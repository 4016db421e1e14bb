/**
 The data plane's lease manager: one lease, the reservations opened against it, and a counter that names them.

 State is the abstract value of a manager; the functions on it say what each operation does. The class Manager
 is the mutable object, each method proved to do exactly that.
 */
module LeaseManager {
  import opened Results
  import opened Meters

  type Time = int  // nanoseconds, 0 is the source's zero time

  datatype Lease = Lease(
    id: string,
    executionID: string,
    replicaID: string,
    epoch: nat,
    granted: Meters,
    consumed: Meters,
    expiresAt: Time)

  datatype Reservation = Reservation(values: Meters, held: bool)

  datatype State = State(lease: Option<Lease>, reservations: map<nat, Reservation>, nextID: nat)

  /** One meter of every reservation. */
  ghost function Slice(reservations: map<nat, Reservation>, meter: string): map<nat, real> {
    map id | id in reservations :: At(reservations[id].values, meter)
  }

  /** What one meter has open, over all reservations, held ones included. */
  ghost function OpenAt(reservations: map<nat, Reservation>, meter: string): real {
    Sum(Slice(reservations, meter))
  }

  ghost function Available(s: State, meter: string): real
    requires s.lease.Some?
  {
    At(s.lease.value.granted, meter) - At(s.lease.value.consumed, meter) - OpenAt(s.reservations, meter)
  }

  ghost predicate CanReserve(s: State, executionID: string, values: Meters) {
    && s.lease.Some?
    && s.lease.value.executionID == executionID
    && forall meter | meter in values :: Available(s, meter) >= values[meter]
  }

  function CodeFor(meter: string): Code {
    if meter == "calls" then CallLimit
    else if meter == "distinctResources" || meter == "distinct_resources" then DistinctLimit
    else BudgetExhausted
  }

  /** Why a reservation was refused: no lease for the execution, or a meter that falls short. */
  ghost predicate Refusal(s: State, executionID: string, values: Meters, code: Code) {
    if s.lease.None? || s.lease.value.executionID != executionID then code == LeaseUnavailable
    else exists meter | meter in values :: Available(s, meter) < values[meter] && code == CodeFor(meter)
  }

  function Reserved(s: State, values: Meters): State {
    s.(reservations := s.reservations[s.nextID + 1 := Reservation(values, false)], nextID := s.nextID + 1)
  }

  /** A reservation that may still be committed or released. */
  predicate IsOpen(s: State, id: nat) {
    id in s.reservations && !s.reservations[id].held
  }

  /** The source writes to the lease's consumed map without a nil check. */
  predicate CommitDefined(s: State, id: nat) {
    IsOpen(s, id) && s.reservations[id].values != map[] ==> s.lease.Some?
  }

  function Committed(s: State, id: nat): State
    requires CommitDefined(s, id)
  {
    if !IsOpen(s, id) then s
    else
      var charged :=
        if s.lease.None? then None
        else Some(s.lease.value.(consumed := Add(s.lease.value.consumed, s.reservations[id].values)));
      s.(lease := charged, reservations := s.reservations - {id})
  }

  function Released(s: State, id: nat): State {
    if IsOpen(s, id) then s.(reservations := s.reservations - {id}) else s
  }

  function HeldBack(s: State, id: nat): State {
    if id in s.reservations then s.(reservations := s.reservations[id := s.reservations[id].(held := true)]) else s
  }

  datatype LeaseStats =
    LeaseStats(leaseID: string, granted: Meters, consumed: Meters, reserved: Meters, available: Meters)

  lemma OpenAtPut(reservations: map<nat, Reservation>, id: nat, r: Reservation, meter: string)
    ensures OpenAt(reservations[id := r], meter) ==
            OpenAt(reservations, meter) + At(r.values, meter)
            - (if id in reservations then At(reservations[id].values, meter) else 0.0)
  {
    var f := Slice(reservations, meter);
    assert Slice(reservations[id := r], meter) == f[id := At(r.values, meter)];
    SumPut(f, id, At(r.values, meter));
  }

  lemma OpenAtRemove(reservations: map<nat, Reservation>, id: nat, meter: string)
    requires id in reservations
    ensures OpenAt(reservations, meter) == OpenAt(reservations - {id}, meter) + At(reservations[id].values, meter)
  {
    var f := Slice(reservations, meter);
    assert Slice(reservations - {id}, meter) == f - {id};
    SumRemove(f, id);
  }

  class Manager {
    var lease: Option<Lease>
    var reservations: map<nat, Reservation>
    var nextID: nat

    ghost function View(): State
      reads this
    {
      State(lease, reservations, nextID)
    }

    constructor (lease: Option<Lease>)
      ensures View() == State(lease, map[], 0)
    {
      this.lease := lease;
      reservations := map[];
      nextID := 0;
    }

    /** Sums the open reservations in whatever order the map yields them. */
    method AvailableOf(meter: string) returns (r: real)
      requires lease.Some?
      ensures r == Available(View(), meter)
    {
      var reserved := 0.0;
      var rest := reservations;
      while rest != map[]
        invariant reserved + OpenAt(rest, meter) == OpenAt(reservations, meter)
        decreases |rest|
      {
        var id :| id in rest;
        OpenAtRemove(rest, id, meter);
        reserved := reserved + At(rest[id].values, meter);
        rest := rest - {id};
      }
      r := At(lease.value.granted, meter) - At(lease.value.consumed, meter) - reserved;
    }

    method Reserve(executionID: string, values: Meters) returns (r: Result<nat, Code>)
      modifies this
      ensures r.Success? <==> CanReserve(old(View()), executionID, values)
      ensures r.Success? ==> View() == Reserved(old(View()), values) && r.value == nextID
      ensures r.Failure? ==> View() == old(View()) && Refusal(View(), executionID, values, r.error)
    {
      if lease.None? {
        return Failure(LeaseUnavailable);
      }
      if lease.value.executionID != executionID {
        return Failure(LeaseUnavailable);
      }
      var rest := values.Keys;
      while rest != {}
        invariant rest <= values.Keys
        invariant View() == old(View())
        invariant forall meter | meter in values.Keys - rest :: Available(View(), meter) >= values[meter]
      {
        var meter :| meter in rest;
        var avail := AvailableOf(meter);
        if avail < values[meter] {
          return Failure(CodeFor(meter));
        }
        rest := rest - {meter};
      }
      nextID := nextID + 1;
      reservations := reservations[nextID := Reservation(values, false)];
      r := Success(nextID);
    }

    method Commit(id: nat) returns (r: Result<(), Code>)
      requires CommitDefined(View(), id)
      modifies this
      ensures r == if id !in old(reservations) then Failure(NotFound)
                   else if old(reservations)[id].held then Failure(Held)
                   else Success(())
      ensures View() == Committed(old(View()), id)
    {
      if id !in reservations {
        return Failure(NotFound);
      }
      if reservations[id].held {
        return Failure(Held);
      }
      var values := reservations[id].values;
      if lease.Some? {
        var consumed := lease.value.consumed;
        var rest := values.Keys;
        while rest != {}
          invariant rest <= values.Keys
          invariant consumed.Keys == lease.value.consumed.Keys + (values.Keys - rest)
          invariant forall meter | meter in consumed ::
            consumed[meter] == At(lease.value.consumed, meter) + if meter in rest then 0.0 else At(values, meter)
          invariant View() == old(View())
        {
          var meter :| meter in rest;
          consumed := consumed[meter := At(consumed, meter) + values[meter]];
          rest := rest - {meter};
        }
        assert consumed == Add(lease.value.consumed, values);
        lease := Some(lease.value.(consumed := consumed));
      }
      reservations := reservations - {id};
      r := Success(());
    }

    /** Unknown and held reservations are left alone without an error. */
    method Release(id: nat)
      modifies this
      ensures View() == Released(old(View()), id)
    {
      if id !in reservations {
        return;
      }
      if reservations[id].held {
        return;
      }
      reservations := reservations - {id};
    }

    method Hold(id: nat) returns (r: Result<(), Code>)
      modifies this
      ensures r == if id in old(reservations) then Success(()) else Failure(NotFound)
      ensures View() == HeldBack(old(View()), id)
    {
      if id !in reservations {
        return Failure(NotFound);
      }
      reservations := reservations[id := reservations[id].(held := true)];
      r := Success(());
    }

    /** The inner loop of ReservedTotals. */
    static method Accumulate(reserved: Meters, values: Meters) returns (sum: Meters)
      ensures sum == Add(reserved, values)
    {
      sum := reserved;
      var rest := values.Keys;
      while rest != {}
        invariant rest <= values.Keys
        invariant sum.Keys == reserved.Keys + (values.Keys - rest)
        invariant forall meter | meter in sum ::
          sum[meter] == At(reserved, meter) + if meter in rest then 0.0 else At(values, meter)
      {
        var meter :| meter in rest;
        sum := sum[meter := At(sum, meter) + values[meter]];
        rest := rest - {meter};
      }
    }

    /** The first loop of Stats: every meter's open total. */
    method ReservedTotals() returns (reserved: Meters)
      ensures forall meter :: At(reserved, meter) == OpenAt(reservations, meter)
    {
      reserved := map[];
      var rest := reservations;
      while rest != map[]
        invariant forall meter :: At(reserved, meter) + OpenAt(rest, meter) == OpenAt(reservations, meter)
        decreases |rest|
      {
        var id :| id in rest;
        forall meter ensures OpenAt(rest, meter) == OpenAt(rest - {id}, meter) + At(rest[id].values, meter) {
          OpenAtRemove(rest, id, meter);
        }
        reserved := Accumulate(reserved, rest[id].values);
        rest := rest - {id};
      }
      forall meter ensures At(reserved, meter) == OpenAt(reservations, meter) {
        assert Slice(rest, meter) == map[];
      }
    }

    /** What Stats reports as available is what Reserve compares against, floored at zero. */
    method Stats() returns (stats: LeaseStats)
      ensures lease.None? ==> stats == LeaseStats("", map[], map[], map[], map[])
      ensures lease.Some? ==>
        && stats.leaseID == lease.value.id
        && stats.granted == lease.value.granted
        && stats.consumed == lease.value.consumed
        && (forall meter :: At(stats.reserved, meter) == OpenAt(reservations, meter))
        && stats.available.Keys == lease.value.granted.Keys
        && (forall meter | meter in stats.available :: stats.available[meter] == Max(0.0, Available(View(), meter)))
    {
      if lease.None? {
        return LeaseStats("", map[], map[], map[], map[]);
      }
      var reserved := ReservedTotals();
      var available: Meters := map[];
      var names := lease.value.granted.Keys;
      while names != {}
        invariant names <= lease.value.granted.Keys
        invariant available.Keys == lease.value.granted.Keys - names
        invariant forall meter | meter in available :: available[meter] == Max(0.0, Available(View(), meter))
      {
        var meter :| meter in names;
        var avail := lease.value.granted[meter] - At(lease.value.consumed, meter) - At(reserved, meter);
        if avail < 0.0 {
          avail := 0.0;
        }
        available := available[meter := avail];
        names := names - {meter};
      }
      stats := LeaseStats(lease.value.id, lease.value.granted, lease.value.consumed, reserved, available);
    }

    /** Replaces the lease as it is given, its consumed quantities included. */
    method RefreshLease(l: Option<Lease>)
      modifies this`lease
      ensures View() == old(View()).(lease := l)
    {
      lease := l;
    }
  }
}
