/** Core-owned history laws: what a recorded history says about an operation,
    which dispatch it permits and which event may be appended to it. */
module Decision {
  import opened Texts
  import opened JsonData
  import opened ReleaseModel

  datatype Candidate = Candidate(facts: RequestFacts, fingerprint: Text)

  datatype Next =
    | PrepareDispatch
    | AppendDispatch(basis: Basis)
    | RequestRiskAcceptance
    | Finish(status: OperationStatus)

  /** Everything recorded about one operation. */
  datatype Facts = Facts(
    starts: seq<Started>,
    receipts: seq<Receipt>,
    rejected: set<Text>,
    observations: seq<Observed>,
    risks: seq<Risk>,
    consumed: set<Text>)

  const NoFacts := Facts([], [], {}, [], [], {})

  function StartIds(starts: seq<Started>): (ids: seq<Text>)
    ensures |ids| == |starts|
    ensures forall i :: 0 <= i < |ids| ==> ids[i] == starts[i].dispatchId
  {
    seq(|starts|, i requires 0 <= i < |starts| => starts[i].dispatchId)
  }

  predicate Dispatched(starts: seq<Started>, dispatchId: Text) {
    exists i :: 0 <= i < |starts| && starts[i].dispatchId == dispatchId
  }

  /** What one more event adds to the facts of an operation. */
  function Extend(f: Facts, body: Body, operationId: Text): Facts {
    match body
    case DispatchStarted(s) =>
      if s.operationId != operationId then f
      else f.(starts := f.starts + [s],
              consumed := if s.basis.AcceptedRisk? then f.consumed + {s.basis.decisionId} else f.consumed)
    case ReceiptAccepted(r) =>
      if Dispatched(f.starts, r.dispatchId) then f.(receipts := f.receipts + [r]) else f
    case DispatchRejectedBeforeCommit(r) =>
      if Dispatched(f.starts, r.dispatchId) then f.(rejected := f.rejected + {r.dispatchId}) else f
    case ObservationRecorded(o) =>
      if o.operationId == operationId then f.(observations := f.observations + [o]) else f
    case RiskAccepted(r) =>
      if r.operationId == operationId then f.(risks := f.risks + [r]) else f
    case PlanSuperseded(_) => f
  }

  /** The facts of an operation in a history. */
  function FactsOf(events: History, operationId: Text): Facts {
    if events == [] then NoFacts
    else Extend(FactsOf(events[..|events| - 1], operationId), events[|events| - 1].body, operationId)
  }

  lemma FactsSnoc(events: History, e: Event, operationId: Text)
    ensures FactsOf(events + [e], operationId) == Extend(FactsOf(events, operationId), e.body, operationId)
  {
    assert (events + [e])[..|events|] == events;
  }

  /** The facts in one pass, with a set of the dispatch identities met so far. */
  method OperationFacts(events: History, operationId: Text) returns (f: Facts)
    ensures f == FactsOf(events, operationId)
  {
    var starts: seq<Started>, dispatchIds: set<Text> := [], {};
    var receipts: seq<Receipt>, rejected: set<Text> := [], {};
    var observations: seq<Observed>, risks: seq<Risk>, consumed: set<Text> := [], [], {};
    for k := 0 to |events|
      invariant Facts(starts, receipts, rejected, observations, risks, consumed)
             == FactsOf(events[..k], operationId)
      invariant forall d :: d in dispatchIds <==> Dispatched(starts, d)
    {
      var body := events[k].body;
      assert events[..k + 1] == events[..k] + [events[k]];
      FactsSnoc(events[..k], events[k], operationId);
      if body.DispatchStarted? && body.start.operationId == operationId {
        forall d ensures Dispatched(starts + [body.start], d)
                     <==> Dispatched(starts, d) || d == body.start.dispatchId
        {
          if Dispatched(starts, d) {
            var i :| 0 <= i < |starts| && starts[i].dispatchId == d;
            assert (starts + [body.start])[i].dispatchId == d;
          }
          assert (starts + [body.start])[|starts|].dispatchId == body.start.dispatchId;
        }
        starts := starts + [body.start];
        dispatchIds := dispatchIds + {body.start.dispatchId};
        if body.start.basis.AcceptedRisk? {
          consumed := consumed + {body.start.basis.decisionId};
        }
      } else if body.ReceiptAccepted? && body.receipt.dispatchId in dispatchIds {
        receipts := receipts + [body.receipt];
      } else if body.DispatchRejectedBeforeCommit? && body.rejection.dispatchId in dispatchIds {
        rejected := rejected + {body.rejection.dispatchId};
      } else if body.ObservationRecorded? && body.observation.operationId == operationId {
        observations := observations + [body.observation];
      } else if body.RiskAccepted? && body.risk.operationId == operationId {
        risks := risks + [body.risk];
      }
    }
    assert events[..|events|] == events;
    f := Facts(starts, receipts, rejected, observations, risks, consumed);
  }

  predicate AnySatisfiedReceipt(receipts: seq<Receipt>) {
    exists i :: 0 <= i < |receipts| && receipts[i].completion == Satisfied
  }

  predicate AnySatisfiedObservation(observations: seq<Observed>) {
    exists i :: 0 <= i < |observations| && observations[i].status == Satisfied
  }

  /** Status of an operation that is not superseded. */
  function StatusOfFacts(f: Facts, kind: ScopeKind): OperationStatus {
    if kind == PreparationScope
       && (AnySatisfiedObservation(f.observations) || AnySatisfiedReceipt(f.receipts)) then Satisfied
    else if f.observations != []
       && f.observations[|f.observations| - 1].status !in {Inconclusive, Absent}
      then f.observations[|f.observations| - 1].status
    else if AnySatisfiedReceipt(f.receipts) then Satisfied
    else if f.receipts != [] then Pending
    else if f.starts == [] then Unattempted
    else if |f.rejected| == |f.starts| then Rejected
    else Inconclusive
  }

  function OperationStatusIn(events: History, operationId: Text, kind: ScopeKind): OperationStatus {
    if SupersededIn(events) then Superseded
    else StatusOfFacts(FactsOf(events, operationId), kind)
  }

  const UPDATE_REF: Text := [117, 112, 100, 97, 116, 101, 45, 114, 101, 102]  // "update-ref"

  /** A request the protocol itself makes safe to repeat: core Git compare-and-swap. */
  predicate CoreCas(request: RequestFacts) {
    request.transport == CoreGit && request.verb == UPDATE_REF && request.replay.GitCas?
  }

  predicate SameProtectedRequest(recorded: RequestFacts, candidate: RequestFacts) {
    CoreCas(recorded) && recorded == candidate
  }

  predicate SameStrings(left: seq<Text>, right: seq<Text>) {
    Sort(left) == Sort(right)
  }

  /** `facts.starts.filter((start) => !facts.rejected.has(start.dispatchId))`. */
  function Unresolved(starts: seq<Started>, rejected: set<Text>): (r: seq<Started>)
    ensures forall s :: s in r <==> s in starts && s.dispatchId !in rejected
  {
    if starts == [] then []
    else
      var prior := Unresolved(starts[..|starts| - 1], rejected);
      var last := starts[|starts| - 1];
      assert starts == starts[..|starts| - 1] + [last];
      if last.dispatchId in rejected then prior else prior + [last]
  }

  predicate AllProtectedBy(starts: seq<Started>, candidate: RequestFacts) {
    forall i :: 0 <= i < |starts| ==> SameProtectedRequest(starts[i].request, candidate)
  }

  /** A recorded risk decision that covers exactly this attempt set and request. */
  predicate Covers(r: Risk, f: Facts, candidate: Candidate, now: int) {
    && r.expiresAt >= now
    && r.fingerprint == candidate.fingerprint
    && SameStrings(r.priorDispatchIds, StartIds(f.starts))
  }

  /** `facts.risks.find(...)`, including the check that the decision is unused. */
  function FindRisk(risks: seq<Risk>, f: Facts, candidate: Candidate, now: int): (r: Option<Risk>)
    ensures r.Some? ==> r.value in risks && r.value.decisionId !in f.consumed && Covers(r.value, f, candidate, now)
    ensures r.None? ==> forall k :: k in risks ==> k.decisionId in f.consumed || !Covers(k, f, candidate, now)
  {
    if risks == [] then None
    else if risks[0].decisionId !in f.consumed && Covers(risks[0], f, candidate, now) then Some(risks[0])
    else FindRisk(risks[1..], f, candidate, now)
  }

  /** The decision once status, dependencies and a candidate request are settled. */
  function DecideCandidate(f: Facts, status: OperationStatus, candidate: Candidate, now: int): Next {
    var unresolved := Unresolved(f.starts, f.rejected);
    if f.receipts != [] then Finish(status)
    else if f.starts == [] then AppendDispatch(Initial)
    else if unresolved == [] then AppendDispatch(NonCommit(Sort(StartIds(f.starts))))
    else if AllProtectedBy(unresolved, candidate.facts) then
      AppendDispatch(ProtectedReplay(Sort(StartIds(unresolved))))
    else
      match FindRisk(f.risks, f, candidate, now)
      case Some(risk) => AppendDispatch(AcceptedRisk(risk.decisionId))
      case None => RequestRiskAcceptance
  }

  predicate DependenciesSatisfied(events: History, dependsOn: seq<Text>, kind: ScopeKind) {
    forall i :: 0 <= i < |dependsOn| ==> OperationStatusIn(events, dependsOn[i], kind) == Satisfied
  }

  function DispatchDecision(
      plan: Plan, events: History, operationId: Text, candidate: Option<Candidate>, now: int, kind: ScopeKind)
    : Result<Next>
  {
    match FindOperation(plan.operations, operationId)
    case None => Fail(UnknownOperation)
    case Some(operation) =>
      var status := OperationStatusIn(events, operationId, kind);
      if status in {Superseded, Satisfied, Conflict, Pending} then Ok(Finish(status))
      else if !DependenciesSatisfied(events, operation.dependsOn, kind) then Ok(Finish(Pending))
      else if candidate.None? then Ok(PrepareDispatch)
      else Ok(DecideCandidate(FactsOf(events, operationId), status, candidate.value, now))
  }

  predicate IsTime(t: int) {
    0 <= t <= MAX_SAFE
  }

  predicate HasStart(events: History, dispatchId: Text) {
    exists i :: 0 <= i < |events| && events[i].body.DispatchStarted? && events[i].body.start.dispatchId == dispatchId
  }

  predicate HasReceipt(events: History, dispatchId: Text) {
    exists i :: 0 <= i < |events| && events[i].body.ReceiptAccepted? && events[i].body.receipt.dispatchId == dispatchId
  }

  predicate HasRejection(events: History, dispatchId: Text) {
    exists i :: 0 <= i < |events| && events[i].body.DispatchRejectedBeforeCommit?
                && events[i].body.rejection.dispatchId == dispatchId
  }

  predicate HasDecision(events: History, decisionId: Text) {
    exists i :: 0 <= i < |events| && events[i].body.RiskAccepted? && events[i].body.risk.decisionId == decisionId
  }

  predicate HasEventId(events: History, eventId: Text) {
    exists i :: 0 <= i < |events| && events[i].eventId == eventId
  }

  /** The operation an event body names, for the bodies that name one. */
  function NamedOperation(body: Body): Option<Text> {
    match body
    case DispatchStarted(s) => Some(s.operationId)
    case ObservationRecorded(o) => Some(o.operationId)
    case RiskAccepted(r) => Some(r.operationId)
    case _ => None
  }

  function AssertStart(plan: Plan, events: History, s: Started, kind: ScopeKind): Result<()> {
    if !IsTime(s.startedAt) then Fail(DispatchTime)
    else if HasStart(events, s.dispatchId) then Fail(DuplicateDispatch)
    else
      match DispatchDecision(plan, events, s.operationId, Some(Candidate(s.request, s.fingerprint)), s.startedAt, kind)
      case Fail(refusal) => Fail(refusal)
      case Ok(next) => if next == AppendDispatch(s.basis) then Ok(()) else Fail(IllegalDispatch)
  }

  function AssertRisk(events: History, r: Risk, kind: ScopeKind): Result<()> {
    var f := FactsOf(events, r.operationId);
    if !IsTime(r.expiresAt) then Fail(RiskTime)
    else if OperationStatusIn(events, r.operationId, kind) == Superseded then Fail(SupersededDecision)
    else if r.principal == [] || f.starts == [] || f.receipts != []
            || !SameStrings(r.priorDispatchIds, StartIds(f.starts)) then Fail(RiskScope)
    else if HasDecision(events, r.decisionId) then Fail(DuplicateRisk)
    else Ok(())
  }

  /** May `event` follow `events` in the history of `plan`? */
  function AssertJournalAppend(plan: Plan, events: History, event: Event, kind: ScopeKind): Result<()> {
    if event.planId != plan.planId || HasEventId(events, event.eventId) then Fail(JournalEnvelope)
    else
      var named := NamedOperation(event.body);
      if named.Some? && FindOperation(plan.operations, named.value).None? then Fail(UnknownOperation)
      else
        match event.body
        case DispatchStarted(s) => AssertStart(plan, events, s, kind)
        case ReceiptAccepted(r) =>
          if !HasStart(events, r.dispatchId) then Fail(UnknownDispatch)
          else if HasRejection(events, r.dispatchId) then Fail(ContradictoryEvidence)
          else if HasReceipt(events, r.dispatchId) then Fail(DuplicateEvidence)
          else Ok(())
        case DispatchRejectedBeforeCommit(r) =>
          if !HasStart(events, r.dispatchId) then Fail(UnknownDispatch)
          else if HasReceipt(events, r.dispatchId) then Fail(ContradictoryEvidence)
          else if HasRejection(events, r.dispatchId) then Fail(DuplicateEvidence)
          else Ok(())
        case RiskAccepted(r) => AssertRisk(events, r, kind)
        case ObservationRecorded(o) => if !IsTime(o.observedAt) then Fail(ObservationTime) else Ok(())
        case PlanSuperseded(_) => if SupersededIn(events) then Fail(DuplicateSupersession) else Ok(())
  }

  datatype OperationReport = OperationReport(
    operationId: Text, status: OperationStatus, dispatches: nat, receipts: nat, observations: nat)

  datatype ReleaseReport = ReleaseReport(
    planId: Text, revision: nat, superseded: bool, operations: seq<OperationReport>)

  function ReportOf(o: Operation, events: History, kind: ScopeKind): OperationReport {
    var f := FactsOf(events, o.operationId);
    OperationReport(o.operationId, OperationStatusIn(events, o.operationId, kind), |f.starts|, |f.receipts|, |f.observations|)
  }

  /** `projectReport`: each operation of the plan, in plan order. */
  function ProjectReport(plan: Plan, events: History, kind: ScopeKind): ReleaseReport {
    ReleaseReport(plan.planId, |events|, SupersededIn(events),
                  seq(|plan.operations|, i requires 0 <= i < |plan.operations| => ReportOf(plan.operations[i], events, kind)))
  }

  /** Every event was admissible when it was appended. */
  predicate Admitted(plan: Plan, events: History, kind: ScopeKind) {
    events == [] ||
    (&& Admitted(plan, events[..|events| - 1], kind)
     && AssertJournalAppend(plan, events[..|events| - 1], events[|events| - 1], kind).Ok?)
  }

  /** The immutable decision machine over an admitted history. */
  datatype HistoryMachine = HistoryMachine(plan: Plan, events: History, kind: ScopeKind) {
    predicate Valid() {
      Admitted(plan, events, kind)
    }

    function Append(event: Event): (r: Result<HistoryMachine>)
      ensures Valid() && r.Ok? ==> r.value.Valid()
      ensures r.Ok? ==> r.value == this.(events := events + [event])
    {
      match AssertJournalAppend(plan, events, event, kind)
      case Fail(refusal) => Fail(refusal)
      case Ok(_) =>
        assert (events + [event])[..|events|] == events;
        Ok(HistoryMachine(plan, events + [event], kind))
    }

    function NextStep(operationId: Text, candidate: Option<Candidate>, now: int): Result<Next> {
      DispatchDecision(plan, events, operationId, candidate, now, kind)
    }
  }

  /** `events.reduce((machine, event) => machine.append(event), empty)`. */
  function MachineOf(plan: Plan, events: History, kind: ScopeKind): Result<HistoryMachine> {
    if events == [] then Ok(HistoryMachine(plan, [], kind))
    else
      match MachineOf(plan, events[..|events| - 1], kind)
      case Fail(refusal) => Fail(refusal)
      case Ok(machine) => machine.Append(events[|events| - 1])
  }

  /** The machine exists exactly for the admitted histories, and then it is that history. */
  lemma {:induction false} MachineExists(plan: Plan, events: History, kind: ScopeKind)
    ensures MachineOf(plan, events, kind).Ok? <==> Admitted(plan, events, kind)
    ensures Admitted(plan, events, kind)
        ==> MachineOf(plan, events, kind) == Ok(HistoryMachine(plan, events, kind))
  {
    if events != [] {
      MachineExists(plan, events[..|events| - 1], kind);
      assert events == events[..|events| - 1] + [events[|events| - 1]];
    }
  }
}
