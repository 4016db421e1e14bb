/**
 The firewall's request runner: stages until one stops, a reservation by the last of them, and a settlement that
 depends on how the upstream answered.

 Requests run one at a time in Handle; ConcurrentRequests lets their two halves interleave.
 */
module Pipeline {
  import opened Results
  import opened Meters
  import opened LeaseManager

  /** What one of the stages before the budget stage does; none of them touches the lease manager. */
  datatype StageResult = Continue | Deny(code: Code) | Approve | Failed | Unexpected

  datatype Decision = ALLOW | DENY | REQUIRE_APPROVAL

  /** Everything about a request that the runner's course depends on. */
  datatype Request = Request(
    executionID: string,
    stages: seq<StageResult>,
    passport: bool,               // the passport stage populated it
    meters: Option<Meters>,       // what the extractor yields, if it does
    reply: Reply)

  datatype Reply = PrepareFailed | Unreachable | Status(code: int)

  datatype Answer =
    | Forwarded(status: int)
    | BadGateway
    | Denied(code: Code)
    | ApprovalRequired

  datatype Entry = Entry(decision: Decision, code: Option<Code>)

  function EntryFor(a: Answer): Entry {
    match a
    case Forwarded(_) => Entry(ALLOW, None)
    case BadGateway => Entry(DENY, Some(Misconfiguration))
    case Denied(code) => Entry(DENY, Some(code))
    case ApprovalRequired => Entry(REQUIRE_APPROVAL, None)
  }

  /** Stage i is the first not to continue, and this is what it answers with. */
  predicate StopsAt(stages: seq<StageResult>, i: nat, a: Answer)
    requires i < |stages|
  {
    && (forall j | 0 <= j < i :: stages[j] == Continue)
    && match stages[i]
       case Continue => false
       case Deny(code) => a == Denied(code)
       case Approve => a == ApprovalRequired
       case Failed => a == Denied(Misconfiguration)
       case Unexpected => a == Denied(Misconfiguration)
  }

  /** How the stages before the budget stage end: by the first that does not continue. */
  function StagesAnswer(stages: seq<StageResult>): Option<Answer> {
    if stages == [] then None
    else match stages[0]
      case Continue => StagesAnswer(stages[1..])
      case Deny(code) => Some(Denied(code))
      case Approve => Some(ApprovalRequired)
      case Failed => Some(Denied(Misconfiguration))
      case Unexpected => Some(Denied(Misconfiguration))
  }

  /** There is no answer exactly when all stages continue; otherwise it is that of the first one that does not. */
  lemma {:induction false} FirstStop(stages: seq<StageResult>, a: Answer)
    ensures StagesAnswer(stages).None? <==> forall i | 0 <= i < |stages| :: stages[i] == Continue
    ensures StagesAnswer(stages) == Some(a) <==> exists i | 0 <= i < |stages| :: StopsAt(stages, i, a)
  {
    if stages != [] && stages[0] == Continue {
      FirstStop(stages[1..], a);
      assert forall i | 0 < i < |stages| :: stages[i] == stages[1..][i - 1];
      forall i | 0 < i < |stages| ensures StopsAt(stages, i, a) <==> StopsAt(stages[1..], i - 1, a) {
        assert forall j | 0 < j < i :: stages[j] == stages[1..][j - 1];
      }
      if i :| 0 <= i < |stages| - 1 && StopsAt(stages[1..], i, a) {
        assert StopsAt(stages, i + 1, a);
      }
    } else if stages != [] {
      assert StagesAnswer(stages) == Some(a) <==> StopsAt(stages, 0, a);
    }
  }

  /** The request gets as far as a reservation. */
  ghost predicate Reserves(s: State, req: Request) {
    && StagesAnswer(req.stages).None? && req.passport && req.meters.Some?
    && CanReserve(s, req.executionID, req.meters.value)
  }

  predicate Succeeds(reply: Reply) {
    reply.Status? && 200 <= reply.code < 300
  }

  predicate Rejects(reply: Reply) {
    reply.Status? && 400 <= reply.code < 500
  }

  /** A success commits, a client error releases, everything else is ambiguous and holds. */
  function Settled(s: State, id: nat, reply: Reply): State
    requires CommitDefined(s, id)
  {
    if Succeeds(reply) then Committed(s, id)
    else if Rejects(reply) then Released(s, id)
    else HeldBack(s, id)
  }

  ghost function Handled(s: State, req: Request): State {
    if Reserves(s, req) then Settled(Reserved(s, req.meters.value), s.nextID + 1, req.reply) else s
  }

  /** The answers a request may get; which meter a refusal names depends on the order of a map. */
  ghost predicate Answers(s: State, req: Request, a: Answer) {
    if StagesAnswer(req.stages).Some? then a == StagesAnswer(req.stages).value
    else if !req.passport then a == Denied(PassportInvalid)
    else if req.meters.None? then a == Denied(LeaseUnavailable)
    else if !CanReserve(s, req.executionID, req.meters.value) then
      a.Denied? && Refusal(s, req.executionID, req.meters.value, a.code)
    else if req.reply.Status? then a == Forwarded(req.reply.code)
    else a == BadGateway
  }

  /** The answer where no lease manager is configured: nothing gets past the budget stage. */
  function WithoutManager(req: Request): Answer {
    var stopped := StagesAnswer(req.stages);
    if stopped.Some? then stopped.value
    else if !req.passport then Denied(PassportInvalid)
    else Denied(LeaseUnavailable)
  }

  class Runner {
    const manager: Manager
    const leasing: bool    // a lease manager is configured; manager is out of use without
    const recording: bool  // a receipt chain is configured
    var receipts: seq<Entry>

    constructor (manager: Manager, leasing: bool, recording: bool)
      ensures this.manager == manager && this.leasing == leasing && this.recording == recording && receipts == []
    {
      this.manager, this.leasing, this.recording := manager, leasing, recording;
      receipts := [];
    }

    /** The last stage, the only one that reserves. */
    method BudgetStage(req: Request) returns (r: Result<nat, Code>)
      modifies manager
      ensures r.Success? <==>
        && req.passport && leasing && req.meters.Some?
        && CanReserve(old(manager.View()), req.executionID, req.meters.value)
      ensures r.Success? ==>
        manager.View() == Reserved(old(manager.View()), req.meters.value) && r.value == old(manager.nextID) + 1
      ensures r.Failure? ==> manager.View() == old(manager.View())
      ensures r.Failure? ==>
        if !req.passport then r.error == PassportInvalid
        else if !leasing || req.meters.None? then r.error == LeaseUnavailable
        else Refusal(manager.View(), req.executionID, req.meters.value, r.error)
    {
      if !req.passport {
        return Failure(PassportInvalid);
      }
      if !leasing {
        return Failure(LeaseUnavailable);
      }
      if req.meters.None? {
        return Failure(LeaseUnavailable);
      }
      r := manager.Reserve(req.executionID, req.meters.value);
    }

    /** One request, one settlement, one receipt; none without a chain or when appending to it fails. */
    method Handle(req: Request, appendFails: bool) returns (a: Answer)
      modifies manager, this`receipts
      ensures manager.View() == if leasing then Handled(old(manager.View()), req) else old(manager.View())
      ensures leasing ==> Answers(old(manager.View()), req, a)
      ensures !leasing ==> a == WithoutManager(req)
      ensures receipts == old(receipts) + if recording && !appendFails then [EntryFor(a)] else []
    {
      var stopped: Option<Answer> := None;
      var i := 0;
      while i < |req.stages| && stopped.None?
        invariant 0 <= i <= |req.stages|
        invariant stopped.None? ==> StagesAnswer(req.stages) == StagesAnswer(req.stages[i..])
        invariant stopped.Some? ==> StagesAnswer(req.stages) == stopped
        decreases |req.stages| - i, stopped.None?
      {
        match req.stages[i] {
          case Continue => i := i + 1;
          case Deny(code) => stopped := Some(Denied(code));
          case Approve => stopped := Some(ApprovalRequired);
          case Failed => stopped := Some(Denied(Misconfiguration));
          case Unexpected => stopped := Some(Denied(Misconfiguration));
        }
      }
      var reservation: Option<nat> := None;
      if stopped.None? {
        var r := BudgetStage(req);
        match r {
          case Success(id) => reservation := Some(id);
          case Failure(code) => stopped := Some(Denied(code));
        }
      }
      if stopped.Some? {
        a := stopped.value;
      } else {
        a := Settle(reservation.value, req.reply);
      }
      if recording && !appendFails {
        receipts := receipts + [EntryFor(a)];
      }
    }

    method Settle(id: nat, reply: Reply) returns (a: Answer)
      requires CommitDefined(manager.View(), id)
      modifies manager
      ensures manager.View() == Settled(old(manager.View()), id, reply)
      ensures a == if reply.Status? then Forwarded(reply.code) else BadGateway
    {
      match reply
      case PrepareFailed =>
        var _ := manager.Hold(id);
        a := BadGateway;
      case Unreachable =>
        var _ := manager.Hold(id);
        a := BadGateway;
      case Status(code) =>
        if 200 <= code < 300 {
          var _ := manager.Commit(id);
        } else if 400 <= code < 500 {
          manager.Release(id);
        } else {
          var _ := manager.Hold(id);
        }
        a := Forwarded(code);
    }
  }
}
