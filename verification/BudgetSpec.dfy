/**
 The abstract lease protocol of formal/budget.tla, for any set of replicas and any total. Naturals are read as
 quantities that are not negative.
 */
module BudgetSpec {
  import opened Meters

  datatype State = State(
    remaining: real,
    granted: map<string, real>,
    consumed: map<string, real>,
    reserved: map<string, real>,
    crashed: map<string, bool>)

  ghost predicate Domains(replicas: set<string>, s: State) {
    s.granted.Keys == s.consumed.Keys == s.reserved.Keys == s.crashed.Keys == replicas
  }

  ghost predicate Init(replicas: set<string>, total: real, s: State) {
    && Domains(replicas, s) && s.remaining == total
    && forall r | r in replicas :: s.granted[r] == 0.0 && s.consumed[r] == 0.0 && s.reserved[r] == 0.0 && !s.crashed[r]
  }

  ghost predicate Acquire(s: State, s': State, r: string, a: real)
    requires r in s.granted && r in s.crashed
  {
    && !s.crashed[r] && 0.0 < a <= s.remaining
    && s' == s.(remaining := s.remaining - a, granted := s.granted[r := s.granted[r] + a])
  }

  ghost predicate Spend(s: State, s': State, r: string, a: real)
    requires r in s.granted && r in s.consumed && r in s.crashed
  {
    && !s.crashed[r] && 0.0 < a <= s.granted[r]
    && s' == s.(granted := s.granted[r := s.granted[r] - a], consumed := s.consumed[r := s.consumed[r] + a])
  }

  ghost predicate Reserve(s: State, s': State, r: string, a: real)
    requires r in s.granted && r in s.reserved && r in s.crashed
  {
    && !s.crashed[r] && 0.0 < a <= s.granted[r]
    && s' == s.(granted := s.granted[r := s.granted[r] - a], reserved := s.reserved[r := s.reserved[r] + a])
  }

  ghost predicate CommitReserve(s: State, s': State, r: string, a: real)
    requires r in s.consumed && r in s.reserved && r in s.crashed
  {
    && !s.crashed[r] && 0.0 < a <= s.reserved[r]
    && s' == s.(reserved := s.reserved[r := s.reserved[r] - a], consumed := s.consumed[r := s.consumed[r] + a])
  }

  ghost predicate ReleaseReserve(s: State, s': State, r: string, a: real)
    requires r in s.granted && r in s.reserved && r in s.crashed
  {
    && !s.crashed[r] && 0.0 < a <= s.reserved[r]
    && s' == s.(reserved := s.reserved[r := s.reserved[r] - a], granted := s.granted[r := s.granted[r] + a])
  }

  ghost predicate Release(s: State, s': State, r: string)
    requires r in s.granted && r in s.crashed
  {
    && !s.crashed[r] && s.granted[r] > 0.0
    && s' == s.(remaining := s.remaining + s.granted[r], granted := s.granted[r := 0.0])
  }

  ghost predicate Crash(s: State, s': State, r: string)
    requires r in s.crashed
  {
    !s.crashed[r] && s' == s.(crashed := s.crashed[r := true])
  }

  ghost predicate Expire(s: State, s': State, r: string)
    requires r in s.granted && r in s.reserved && r in s.crashed
  {
    && s.crashed[r]
    && s' == s.(remaining := s.remaining + s.granted[r] + s.reserved[r], granted := s.granted[r := 0.0],
                reserved := s.reserved[r := 0.0], crashed := s.crashed[r := false])
  }

  ghost predicate StepOf(s: State, s': State, r: string)
    requires r in s.granted && r in s.consumed && r in s.reserved && r in s.crashed
  {
    || (exists a :: Acquire(s, s', r, a))
    || (exists a :: Spend(s, s', r, a))
    || (exists a :: Reserve(s, s', r, a))
    || (exists a :: CommitReserve(s, s', r, a))
    || (exists a :: ReleaseReserve(s, s', r, a))
    || Release(s, s', r) || Crash(s, s', r) || Expire(s, s', r)
  }

  ghost predicate Next(replicas: set<string>, s: State, s': State)
    requires Domains(replicas, s)
  {
    exists r | r in replicas :: StepOf(s, s', r)
  }

  ghost predicate NonNegative(s: State) {
    && s.remaining >= 0.0
    && (forall r | r in s.granted :: s.granted[r] >= 0.0)
    && (forall r | r in s.consumed :: s.consumed[r] >= 0.0)
    && (forall r | r in s.reserved :: s.reserved[r] >= 0.0)
  }

  /** The inductive invariant: the written NoOverspend with the reserved quantities added. */
  ghost predicate Inv(replicas: set<string>, total: real, s: State) {
    && Domains(replicas, s) && NonNegative(s)
    && s.remaining + Sum(s.granted) + Sum(s.reserved) + Sum(s.consumed) == total
  }

  ghost predicate TypeOK(replicas: set<string>, total: real, s: State) {
    && Domains(replicas, s) && 0.0 <= s.remaining <= total
    && (forall r | r in replicas ::
          0.0 <= s.granted[r] <= total && 0.0 <= s.consumed[r] <= total && 0.0 <= s.reserved[r] <= total)
  }

  ghost predicate NoOverspend(total: real, s: State) {
    s.remaining + Sum(s.granted) + Sum(s.consumed) == total
  }

  ghost predicate SafetyInvariant(total: real, s: State) {
    Sum(s.consumed) <= total
  }

  lemma InitInv(replicas: set<string>, total: real, s: State)
    requires Init(replicas, total, s) && total >= 0.0
    ensures Inv(replicas, total, s)
  {
    SumZero(s.granted);
    SumZero(s.consumed);
    SumZero(s.reserved);
  }

  /** Every action of a replica moves quantities between its own columns and what remains, and no column below zero. */
  ghost predicate Balanced(s: State, s': State, r: string)
    requires r in s.granted && r in s.consumed && r in s.reserved
  {
    && r in s'.granted && r in s'.consumed && r in s'.reserved
    && s'.granted == s.granted[r := s'.granted[r]]
    && s'.consumed == s.consumed[r := s'.consumed[r]]
    && s'.reserved == s.reserved[r := s'.reserved[r]]
    && s'.crashed.Keys == s.crashed.Keys
    && s'.remaining >= 0.0 && s'.granted[r] >= 0.0 && s'.consumed[r] >= 0.0 && s'.reserved[r] >= 0.0
    && s'.remaining + s'.granted[r] + s'.consumed[r] + s'.reserved[r]
       == s.remaining + s.granted[r] + s.consumed[r] + s.reserved[r]
  }

  lemma SameEntry<V>(f: map<string, V>, r: string)
    requires r in f
    ensures f[r := f[r]] == f
  {
  }

  lemma StepBalanced(replicas: set<string>, s: State, s': State, r: string)
    requires Domains(replicas, s) && NonNegative(s) && r in replicas && StepOf(s, s', r)
    ensures Balanced(s, s', r)
  {
    SameEntry(s.granted, r);
    SameEntry(s.consumed, r);
    SameEntry(s.reserved, r);
    if a :| Acquire(s, s', r, a) {
    } else if a :| Spend(s, s', r, a) {
    } else if a :| Reserve(s, s', r, a) {
    } else if a :| CommitReserve(s, s', r, a) {
    } else if a :| ReleaseReserve(s, s', r, a) {
    } else if Release(s, s', r) {
    } else if Crash(s, s', r) {
    } else {
      assert Expire(s, s', r);
    }
  }

  lemma StepInv(replicas: set<string>, total: real, s: State, s': State)
    requires Inv(replicas, total, s) && Next(replicas, s, s')
    ensures Inv(replicas, total, s')
  {
    var r :| r in replicas && StepOf(s, s', r);
    StepBalanced(replicas, s, s', r);
    BalancedInv(replicas, total, s, s', r);
  }

  lemma BalancedInv(replicas: set<string>, total: real, s: State, s': State, r: string)
    requires Inv(replicas, total, s) && r in replicas && Balanced(s, s', r)
    ensures Inv(replicas, total, s')
  {
    SumPut(s.granted, r, s'.granted[r]);
    SumPut(s.consumed, r, s'.consumed[r]);
    SumPut(s.reserved, r, s'.reserved[r]);
  }

  /** A behaviour starts initially and takes actions or stutters. */
  ghost predicate Behaviour(replicas: set<string>, total: real, run: seq<State>)
    decreases |run|
  {
    && run != []
    && var last := run[|run| - 1];
       if |run| == 1 then Init(replicas, total, last)
       else
         var before := run[|run| - 2];
         && Behaviour(replicas, total, run[..|run| - 1])
         && Domains(replicas, before) && (last == before || Next(replicas, before, last))
  }

  lemma {:induction false} BehaviourInv(replicas: set<string>, total: real, run: seq<State>)
    requires Behaviour(replicas, total, run) && total >= 0.0
    ensures Inv(replicas, total, run[|run| - 1])
    decreases |run|
  {
    if |run| == 1 {
      InitInv(replicas, total, run[0]);
    } else {
      BehaviourInv(replicas, total, run[..|run| - 1]);
      if run[|run| - 1] != run[|run| - 2] {
        StepInv(replicas, total, run[|run| - 2], run[|run| - 1]);
      }
    }
  }

  /**
   The specification's theorem, as far as it holds: TypeOK and SafetyInvariant in every reachable state, and the
   written NoOverspend exactly when nothing is reserved.
   */
  lemma SpecTheorem(replicas: set<string>, total: real, run: seq<State>)
    requires Behaviour(replicas, total, run) && total >= 0.0
    ensures var s := run[|run| - 1];
      && TypeOK(replicas, total, s) && SafetyInvariant(total, s)
      && (NoOverspend(total, s) <==> forall r | r in replicas :: s.reserved[r] == 0.0)
  {
    BehaviourInv(replicas, total, run);
    var s := run[|run| - 1];
    SumNonNegative(s.granted);
    SumNonNegative(s.consumed);
    SumNonNegative(s.reserved);
    if forall r | r in replicas :: s.reserved[r] == 0.0 {
      SumZero(s.reserved);
    }
  }

  /** One acquire and one reserve falsify the written NoOverspend, for every total that is positive. */
  lemma NoOverspendAsWrittenFails(total: real) returns (run: seq<State>)
    requires total > 0.0
    ensures Behaviour({"r"}, total, run) && !NoOverspend(total, run[|run| - 1])
  {
    var zero := map["r" := 0.0];
    var all := map["r" := total];
    var up := map["r" := false];
    var s0 := State(total, zero, zero, zero, up);
    var s1 := State(0.0, all, zero, zero, up);
    var s2 := State(0.0, zero, zero, all, up);
    assert zero["r" := total] == all && all["r" := 0.0] == zero;
    assert Acquire(s0, s1, "r", total) && StepOf(s0, s1, "r");
    assert Reserve(s1, s2, "r", total) && StepOf(s1, s2, "r");
    assert Domains({"r"}, s0) && Domains({"r"}, s1);
    run := [s0, s1, s2];
    assert run[..2] == [s0, s1] && [s0, s1][..1] == [s0];
    assert Behaviour({"r"}, total, [s0]) && Behaviour({"r"}, total, [s0, s1]);
    SumZero(zero);
  }
}
