/**
 What the pipeline keeps over many requests, one at a time or with their reservations and settlements interleaved.
 */
module PipelineRuns {
  import opened Results
  import opened Meters
  import opened LeaseManager
  import opened Pipeline
  import Runs = LeaseManagerRuns

  // Settlements by the number that the upstream answers.

  /**
   What settling an open reservation does: from 200 to 299 exactly its values are consumed and it is gone, from 400 to
   499 it is gone and nothing is consumed, and for every other number, or without one, it is held with its values.
   */
  lemma SettledByStatus(s: State, id: nat, reply: Reply)
    requires s.lease.Some? && id in s.reservations && !s.reservations[id].held
    ensures var t := Settled(s, id, reply);
      && t.nextID == s.nextID
      && (forall k | k != id :: k in t.reservations <==> k in s.reservations)
      && (forall k | k != id && k in s.reservations :: t.reservations[k] == s.reservations[k])
      && (reply.Status? && 200 <= reply.code <= 299 ==>
            && id !in t.reservations && t.lease.Some?
            && t.lease.value.(consumed := s.lease.value.consumed) == s.lease.value
            && forall m :: At(t.lease.value.consumed, m)
                           == At(s.lease.value.consumed, m) + At(s.reservations[id].values, m))
      && (reply.Status? && 400 <= reply.code <= 499 ==> id !in t.reservations && t.lease == s.lease)
      && (!reply.Status? || reply.code < 200 || 299 < reply.code < 400 || 499 < reply.code ==>
            && id in t.reservations && t.reservations[id].values == s.reservations[id].values
            && t.reservations[id].held && t.lease == s.lease)
  {
  }

  /** A request that is denied, needs approval or was rejected upstream leaves nothing behind but a used-up number. */
  lemma NoTrace(s: State, req: Request)
    requires Runs.Numbered(s)
    requires !Reserves(s, req) || (req.reply.Status? && 400 <= req.reply.code <= 499)
    ensures Handled(s, req).lease == s.lease && Handled(s, req).reservations == s.reservations
  {
    if Reserves(s, req) {
      assert s.nextID + 1 !in s.reservations;
      assert Handled(s, req).reservations == s.reservations;
    }
  }

  // Answers and what is recorded of them.

  /** The upstream's number is answered exactly when the request reserved and there is one, 502 when there is none. */
  lemma AnsweredIff(s: State, req: Request, a: Answer)
    requires Answers(s, req, a)
    ensures a.Forwarded? <==> Reserves(s, req) && req.reply.Status?
    ensures a.Forwarded? ==> a.status == req.reply.code
    ensures a.BadGateway? <==> Reserves(s, req) && !req.reply.Status?
    ensures a.ApprovalRequired? <==> exists i | 0 <= i < |req.stages| ::
      req.stages[i].Approve? && forall j | 0 <= j < i :: req.stages[j].Continue?
  {
    FirstStop(req.stages, a);
    FirstStop(req.stages, ApprovalRequired);
    if i :| 0 <= i < |req.stages| && req.stages[i].Approve? && forall j | 0 <= j < i :: req.stages[j].Continue? {
      assert StopsAt(req.stages, i, ApprovalRequired);
    }
  }

  /** The code of a denial: that of the stage that denied, or why the last stage could not reserve. */
  lemma DeniedWith(s: State, req: Request, a: Answer)
    requires Answers(s, req, a) && a.Denied?
    ensures if forall i | 0 <= i < |req.stages| :: req.stages[i].Continue? then
        && (!req.passport ==> a.code == PassportInvalid)
        && (req.passport && req.meters.None? ==> a.code == LeaseUnavailable)
        && (req.passport && req.meters.Some? ==> Refusal(s, req.executionID, req.meters.value, a.code))
      else exists i | 0 <= i < |req.stages| :: DeniedAt(req.stages, i, a.code)
  {
    FirstStop(req.stages, a);
    if i :| 0 <= i < |req.stages| && StopsAt(req.stages, i, a) {
      assert DeniedAt(req.stages, i, a.code);
    }
  }

  predicate DeniedAt(stages: seq<StageResult>, i: nat, code: Code)
    requires i < |stages|
  {
    && (forall j | 0 <= j < i :: stages[j].Continue?)
    && if stages[i].Deny? then code == stages[i].code
       else code == Misconfiguration && (stages[i].Failed? || stages[i].Unexpected?)
  }

  /** A receipt says ALLOW exactly when the request was forwarded; else it carries the code of the denial. */
  lemma RecordedAs(s: State, req: Request, a: Answer)
    requires Answers(s, req, a)
    ensures EntryFor(a).decision == ALLOW <==> Reserves(s, req) && req.reply.Status?
    ensures EntryFor(a).decision == REQUIRE_APPROVAL <==> a.ApprovalRequired?
    ensures EntryFor(a).code == match a
      case Denied(code) => Some(code)
      case BadGateway => Some(Misconfiguration)
      case _ => None
  {
    AnsweredIff(s, req, a);
  }

  /** Without a lease manager nothing is forwarded; past the other stages the answer names what is missing first. */
  lemma WithoutLeases(req: Request)
    ensures var a := WithoutManager(req);
      && !a.Forwarded? && !a.BadGateway?
      && if forall i | 0 <= i < |req.stages| :: req.stages[i].Continue?
         then a == Denied(if req.passport then LeaseUnavailable else PassportInvalid)
         else exists i | 0 <= i < |req.stages| :: StopsAt(req.stages, i, a)
  {
    FirstStop(req.stages, WithoutManager(req));
  }

  // Requests whose two halves interleave.

  /** The lease manager and the requests between reserving and settling, by reservation. */
  datatype Concurrent = Concurrent(s: State, inFlight: map<nat, Meters>)

  datatype Event = Begin(req: Request) | Settle(id: nat, reply: Reply)

  ghost predicate Admissible(c: Concurrent, ev: Event) {
    match ev
    case Begin(req) => req.meters.Some? ==> NonNegative(req.meters.value)
    case Settle(id, _) => id in c.inFlight
  }

  ghost function Next(c: Concurrent, ev: Event): Concurrent {
    match ev
    case Begin(req) =>
      if Reserves(c.s, req)
      then Concurrent(Reserved(c.s, req.meters.value), c.inFlight[c.s.nextID + 1 := req.meters.value])
      else c
    case Settle(id, reply) =>
      if CommitDefined(c.s, id) then Concurrent(Settled(c.s, id, reply), c.inFlight - {id}) else c
  }

  /** The reservations that are open and not held are exactly the requests in flight, with their values. */
  ghost predicate Matched(c: Concurrent) {
    && (forall id :: id in c.inFlight <==> IsOpen(c.s, id))
    && (forall id | id in c.inFlight :: c.s.reservations[id].values == c.inFlight[id])
  }

  ghost predicate Inv(c: Concurrent) {
    Runs.Sound(c.s) && c.s.lease.Some? && Matched(c)
  }

  /** One meter of what an event charges: a settlement that commits. */
  ghost function Charged(c: Concurrent, ev: Event, m: string): real {
    match ev
    case Begin(_) => 0.0
    case Settle(id, reply) =>
      if id in c.inFlight && reply.Status? && 200 <= reply.code <= 299 then At(c.inFlight[id], m) else 0.0
  }

  ghost function Withheld(c: Concurrent, ev: Event, m: string): real {
    match ev
    case Begin(_) => 0.0
    case Settle(id, reply) =>
      if id in c.inFlight && !(reply.Status? && (200 <= reply.code <= 299 || 400 <= reply.code <= 499))
      then At(c.inFlight[id], m) else 0.0
  }

  lemma BeginKeepsMatched(c: Concurrent, req: Request)
    requires Runs.Numbered(c.s) && Matched(c)
    ensures Matched(Next(c, Begin(req)))
  {
    var c' := Next(c, Begin(req));
    if Reserves(c.s, req) {
      var fresh' := c.s.nextID + 1;
      assert fresh' !in c.s.reservations;
      assert c'.inFlight == c.inFlight[fresh' := req.meters.value];
      assert c'.s.reservations == c.s.reservations[fresh' := Reservation(req.meters.value, false)];
    }
  }

  lemma BeginHoldsNothing(c: Concurrent, req: Request, m: string)
    requires Runs.Numbered(c.s)
    ensures Next(c, Begin(req)).s.lease == c.s.lease
    ensures Runs.HeldAt(Next(c, Begin(req)).s.reservations, m) == Runs.HeldAt(c.s.reservations, m)
  {
    if Reserves(c.s, req) {
      assert c.s.nextID + 1 !in c.s.reservations;
      Runs.HeldPut(c.s.reservations, c.s.nextID + 1, Reservation(req.meters.value, false), m);
    }
  }

  lemma BeginKeepsInv(c: Concurrent, req: Request)
    requires Inv(c) && Admissible(c, Begin(req))
    ensures Inv(Next(c, Begin(req)))
  {
    BeginKeepsMatched(c, req);
    if Reserves(c.s, req) {
      Runs.ReserveKeepsSound(c.s, req.executionID, req.meters.value);
    }
  }

  lemma SettleKeepsSound(s: State, id: nat, reply: Reply)
    requires Runs.Sound(s) && s.lease.Some?
    ensures Runs.Sound(Settled(s, id, reply)) && Settled(s, id, reply).lease.Some?
  {
    Runs.StepKeepsSound(s, Runs.Commit(id));
    Runs.StepKeepsSound(s, Runs.Release(id));
    Runs.StepKeepsSound(s, Runs.Hold(id));
  }

  lemma SettleKeepsMatched(c: Concurrent, id: nat, reply: Reply)
    requires Matched(c) && c.s.lease.Some? && id in c.inFlight
    ensures Matched(Next(c, Settle(id, reply)))
  {
  }

  lemma SettleAccounts(c: Concurrent, id: nat, reply: Reply, m: string)
    requires Inv(c) && id in c.inFlight
    ensures var c', ev := Next(c, Settle(id, reply)), Settle(id, reply);
      && c'.s.lease.Some? && c'.s.lease.value.granted == c.s.lease.value.granted
      && At(c'.s.lease.value.consumed, m) == At(c.s.lease.value.consumed, m) + Charged(c, ev, m)
      && Runs.HeldAt(c'.s.reservations, m) == Runs.HeldAt(c.s.reservations, m) + Withheld(c, ev, m)
  {
    assert IsOpen(c.s, id);
    if Succeeds(reply) || Rejects(reply) {
      Runs.HeldRemoveOpen(c.s.reservations, id, m);
    } else {
      Runs.HeldPut(c.s.reservations, id, c.s.reservations[id].(held := true), m);
    }
  }

  /** Every half of a request keeps the bijection and accounts for its meters. */
  lemma StepAccounts(c: Concurrent, ev: Event)
    requires Inv(c) && Admissible(c, ev)
    ensures Inv(Next(c, ev))
    ensures Next(c, ev).s.lease.value.granted == c.s.lease.value.granted
    ensures forall m :: At(Next(c, ev).s.lease.value.consumed, m) == At(c.s.lease.value.consumed, m) + Charged(c, ev, m)
    ensures forall m ::
      Runs.HeldAt(Next(c, ev).s.reservations, m) == Runs.HeldAt(c.s.reservations, m) + Withheld(c, ev, m)
  {
    match ev
    case Begin(req) =>
      BeginKeepsInv(c, req);
      forall m { BeginHoldsNothing(c, req, m); }
    case Settle(id, reply) =>
      SettleKeepsSound(c.s, id, reply);
      SettleKeepsMatched(c, id, reply);
      forall m { SettleAccounts(c, id, reply, m); }
  }

  ghost function Run(c: Concurrent, events: seq<Event>): Concurrent
    decreases |events|
  {
    if events == [] then c else Run(Next(c, events[0]), events[1..])
  }

  ghost predicate AdmissibleRun(c: Concurrent, events: seq<Event>)
    decreases |events|
  {
    events == [] || (Admissible(c, events[0]) && AdmissibleRun(Next(c, events[0]), events[1..]))
  }

  ghost function ChargedIn(c: Concurrent, events: seq<Event>, m: string): real
    decreases |events|
  {
    if events == [] then 0.0 else Charged(c, events[0], m) + ChargedIn(Next(c, events[0]), events[1..], m)
  }

  ghost function WithheldIn(c: Concurrent, events: seq<Event>, m: string): real
    decreases |events|
  {
    if events == [] then 0.0 else Withheld(c, events[0], m) + WithheldIn(Next(c, events[0]), events[1..], m)
  }

  lemma {:induction false} RunAccounts(c: Concurrent, events: seq<Event>, m: string)
    requires Inv(c) && AdmissibleRun(c, events)
    ensures Inv(Run(c, events)) && Run(c, events).s.lease.value.granted == c.s.lease.value.granted
    ensures At(Run(c, events).s.lease.value.consumed, m) == At(c.s.lease.value.consumed, m) + ChargedIn(c, events, m)
    ensures Runs.HeldAt(Run(c, events).s.reservations, m) == Runs.HeldAt(c.s.reservations, m) + WithheldIn(c, events, m)
    decreases |events|
  {
    if events != [] {
      StepAccounts(c, events[0]);
      RunAccounts(Next(c, events[0]), events[1..], m);
    }
  }

  ghost predicate Unused(lease: Lease) {
    NonNegative(lease.granted) && forall m :: At(lease.consumed, m) == 0.0
  }

  /**
   From an unused lease, under any interleaving: the open, unheld reservations are the requests in flight; consumed is
   what the requests answered 2xx asked for; and that, together with everything withheld for requests with an
   ambiguous outcome, stays within the grant.
   */
  lemma ConcurrentRequests(lease: Lease, events: seq<Event>, m: string)
    requires Unused(lease)
    requires AdmissibleRun(Concurrent(State(Some(lease), map[], 0), map[]), events)
    ensures var c0 := Concurrent(State(Some(lease), map[], 0), map[]);
      var c := Run(c0, events);
      && Matched(c) && c.s.lease.Some?
      && At(c.s.lease.value.consumed, m) == ChargedIn(c0, events, m)
      && ChargedIn(c0, events, m) + WithheldIn(c0, events, m) <= At(lease.granted, m)
  {
    var c0 := Concurrent(State(Some(lease), map[], 0), map[]);
    forall n ensures At(lease.consumed, n) + OpenAt(map[], n) <= At(lease.granted, n) {
      assert Slice(map[], n) == map[];
    }
    RunAccounts(c0, events, m);
    var c := Run(c0, events);
    assert Runs.HeldSlice(map[], m) == map[];
    Runs.HeldWithinOpen(c.s.reservations, m);
    assert At(c.s.lease.value.consumed, m) + OpenAt(c.s.reservations, m) <= At(c.s.lease.value.granted, m);
  }

  // Requests one after another.

  ghost function HandledAll(s: State, reqs: seq<Request>): State
    decreases |reqs|
  {
    if reqs == [] then s else HandledAll(Handled(s, reqs[0]), reqs[1..])
  }

  /** A request handled alone is its two halves back to back. */
  lemma HandledIsTwoSteps(c: Concurrent, req: Request)
    requires Inv(c) && c.inFlight == map[] && Admissible(c, Begin(req))
    ensures var b := Next(c, Begin(req));
      && Inv(b)
      && if Reserves(c.s, req)
         then
           && Admissible(b, Settle(b.s.nextID, req.reply))
           && Next(b, Settle(b.s.nextID, req.reply)) == Concurrent(Handled(c.s, req), map[])
         else b == Concurrent(Handled(c.s, req), map[])
  {
    BeginKeepsInv(c, req);
    BeginHoldsNothing(c, req, "");
    if Reserves(c.s, req) {
      var b := Next(c, Begin(req));
      assert b.inFlight - {b.s.nextID} == map[];
    }
  }

  ghost function ChargedBy(s: State, req: Request, m: string): real {
    if Reserves(s, req) && req.reply.Status? && 200 <= req.reply.code <= 299 then At(req.meters.value, m) else 0.0
  }

  ghost function WithheldBy(s: State, req: Request, m: string): real {
    if Reserves(s, req) && !(req.reply.Status? && (200 <= req.reply.code <= 299 || 400 <= req.reply.code <= 499))
    then At(req.meters.value, m) else 0.0
  }

  ghost function ChargedByAll(s: State, reqs: seq<Request>, m: string): real
    decreases |reqs|
  {
    if reqs == [] then 0.0 else ChargedBy(s, reqs[0], m) + ChargedByAll(Handled(s, reqs[0]), reqs[1..], m)
  }

  ghost function WithheldByAll(s: State, reqs: seq<Request>, m: string): real
    decreases |reqs|
  {
    if reqs == [] then 0.0 else WithheldBy(s, reqs[0], m) + WithheldByAll(Handled(s, reqs[0]), reqs[1..], m)
  }

  ghost predicate Idle(s: State) {
    Inv(Concurrent(s, map[]))
  }

  /** One completed request leaves nothing in flight and moves each meter by what its answer says. */
  lemma HandledAccounts(s: State, req: Request, m: string)
    requires Idle(s) && (req.meters.Some? ==> NonNegative(req.meters.value))
    ensures Idle(Handled(s, req)) && Handled(s, req).lease.value.granted == s.lease.value.granted
    ensures At(Handled(s, req).lease.value.consumed, m) == At(s.lease.value.consumed, m) + ChargedBy(s, req, m)
    ensures Runs.HeldAt(Handled(s, req).reservations, m) == Runs.HeldAt(s.reservations, m) + WithheldBy(s, req, m)
  {
    var c := Concurrent(s, map[]);
    HandledIsTwoSteps(c, req);
    BeginHoldsNothing(c, req, m);
    if Reserves(s, req) {
      var b := Next(c, Begin(req));
      StepAccounts(b, Settle(b.s.nextID, req.reply));
    }
  }

  lemma OpenIsHeld(s: State, m: string)
    requires Idle(s)
    ensures forall id | id in s.reservations :: s.reservations[id].held
    ensures OpenAt(s.reservations, m) == Runs.HeldAt(s.reservations, m)
    ensures At(s.lease.value.consumed, m) + OpenAt(s.reservations, m) <= At(s.lease.value.granted, m)
  {
    forall id | id in s.reservations ensures s.reservations[id].held {
      assert id in Concurrent(s, map[]).inFlight <==> IsOpen(s, id);
    }
    Runs.HeldWithinOpen(s.reservations, m);
  }

  /**
   After any completed requests the reservations left are exactly the held ones, consumed has grown by exactly what
   the requests answered 2xx asked for, the open reservations by what the ambiguous ones asked for, and the two
   together never exceed the grant.
   */
  lemma {:induction false} SequentialRequests(s: State, reqs: seq<Request>, m: string)
    requires Idle(s)
    requires forall req | req in reqs :: req.meters.Some? ==> NonNegative(req.meters.value)
    ensures var t := HandledAll(s, reqs);
      && Idle(t) && t.lease.value.granted == s.lease.value.granted
      && (forall id | id in t.reservations :: t.reservations[id].held)
      && At(t.lease.value.consumed, m) == At(s.lease.value.consumed, m) + ChargedByAll(s, reqs, m)
      && OpenAt(t.reservations, m) == OpenAt(s.reservations, m) + WithheldByAll(s, reqs, m)
      && At(t.lease.value.consumed, m) + OpenAt(t.reservations, m) <= At(t.lease.value.granted, m)
    decreases |reqs|
  {
    OpenIsHeld(s, m);
    if reqs != [] {
      HandledAccounts(s, reqs[0], m);
      OpenIsHeld(Handled(s, reqs[0]), m);
      SequentialRequests(Handled(s, reqs[0]), reqs[1..], m);
    }
  }
}
