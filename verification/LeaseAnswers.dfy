/** What the lease manager's calls answer and change, in terms of the lease, the reservations and the values asked. */
module LeaseAnswers {
  import opened Results
  import opened Meters
  import opened LeaseManager
  import opened LeaseManagerRuns

  /**
   A reservation succeeds exactly when the lease is for that execution and every requested value, together with what is
   consumed and what all reservations hold of its meter, is within the grant. It opens one reservation, under the next
   number, with those values, and changes nothing else.
   */
  lemma ReservesIff(s: State, executionID: string, values: Meters)
    ensures var t := Step(s, Op.Reserve(executionID, values));
      if && s.lease.Some? && s.lease.value.executionID == executionID
         && forall m | m in values ::
              At(s.lease.value.consumed, m) + OpenAt(s.reservations, m) + values[m] <= At(s.lease.value.granted, m)
      then
        && t.lease == s.lease && t.nextID == s.nextID + 1 && t.nextID in t.reservations
        && t.reservations[t.nextID].values == values && !t.reservations[t.nextID].held
        && t.reservations == s.reservations[t.nextID := t.reservations[t.nextID]]
      else t == s
  {
    if s.lease.Some? {
      forall m | m in values ensures Available(s, m) >= values[m] <==>
        At(s.lease.value.consumed, m) + OpenAt(s.reservations, m) + values[m] <= At(s.lease.value.granted, m)
      {
      }
    }
  }

  /** The code of a refusal is that of a meter that falls short, by its name; without the lease it is another one. */
  lemma RefusedWith(s: State, executionID: string, values: Meters, code: Code)
    requires Refusal(s, executionID, values, code)
    ensures code == LeaseUnavailable <==> s.lease.None? || s.lease.value.executionID != executionID
    ensures code == CallLimit ==> Short(s, values, "calls")
    ensures code == DistinctLimit ==> Short(s, values, "distinctResources") || Short(s, values, "distinct_resources")
    ensures code == BudgetExhausted ==>
      exists m | m in values :: Short(s, values, m) && m !in {"calls", "distinctResources", "distinct_resources"}
    ensures code in {LeaseUnavailable, CallLimit, DistinctLimit, BudgetExhausted}
  {
    if s.lease.Some? && s.lease.value.executionID == executionID {
      var m :| m in values && Available(s, m) < values[m] && code == CodeFor(m);
      assert Short(s, values, m);
    }
  }

  ghost predicate Short(s: State, values: Meters, m: string) {
    && s.lease.Some? && m in values
    && At(s.lease.value.consumed, m) + OpenAt(s.reservations, m) + values[m] > At(s.lease.value.granted, m)
  }

  /** A refusal of a single meter has the code of its name, as the client is told which limit it hit. */
  lemma RefusedForOne(s: State, executionID: string, m: string, x: real, code: Code)
    requires Refusal(s, executionID, map[m := x], code)
    requires s.lease.Some? && s.lease.value.executionID == executionID
    ensures m == "calls" ==> code == CallLimit
    ensures m == "distinctResources" || m == "distinct_resources" ==> code == DistinctLimit
    ensures m !in {"calls", "distinctResources", "distinct_resources"} ==> code == BudgetExhausted
  {
  }

  /** Commit and release end an open reservation, of which a commit alone consumes the values; held ones stay. */
  lemma SettlesOpen(s: State, id: nat)
    requires s.lease.Some? && id in s.reservations
    ensures var c, r := Step(s, Op.Commit(id)), Step(s, Op.Release(id));
      if s.reservations[id].held then c == s && r == s
      else
        && c.reservations == s.reservations - {id} && r.reservations == s.reservations - {id}
        && c.nextID == r.nextID == s.nextID && r.lease == s.lease && c.lease.Some?
        && c.lease.value.(consumed := s.lease.value.consumed) == s.lease.value
        && forall m :: At(c.lease.value.consumed, m)
                       == At(s.lease.value.consumed, m) + At(s.reservations[id].values, m)
  {
  }

  /** A hold marks a reservation for good; unknown numbers are ignored by all three calls. */
  lemma HoldsAndUnknown(s: State, id: nat)
    ensures id in s.reservations ==>
      var t := Step(s, Op.Hold(id));
      && t.lease == s.lease && t.nextID == s.nextID && t.reservations.Keys == s.reservations.Keys
      && (forall k | k in s.reservations && k != id :: t.reservations[k] == s.reservations[k])
      && t.reservations[id].held && t.reservations[id].values == s.reservations[id].values
    ensures id !in s.reservations ==>
      Step(s, Op.Hold(id)) == s && Step(s, Op.Commit(id)) == s && Step(s, Op.Release(id)) == s
  {
  }

  /** Reserving and committing consumes exactly the values and leaves all other reservations as they were. */
  lemma ReserveThenCommit(s: State, executionID: string, values: Meters, m: string)
    requires Numbered(s) && s.lease.Some? && CanReserve(s, executionID, values)
    ensures var t := Step(Step(s, Op.Reserve(executionID, values)), Op.Commit(s.nextID + 1));
      && t.lease.Some? && t.reservations == s.reservations
      && At(t.lease.value.consumed, m) == At(s.lease.value.consumed, m) + At(values, m)
  {
    assert s.nextID + 1 !in s.reservations;
    assert s.reservations[s.nextID + 1 := Reservation(values, false)] - {s.nextID + 1} == s.reservations;
  }
}
