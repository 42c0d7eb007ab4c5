/** When a dispatch is permitted, and which events a history admits, in terms of the recorded events alone. */
module DispatchLaws {
  import opened Texts
  import opened ReleaseModel
  import opened Decision
  import opened HistoryLaws
  import opened RiskLaws
  import opened StatusLaws

  // ---- What warrants an attempt ----

  /** A sorted list, without repetition, of exactly these identities. */
  ghost predicate Lists(ids: seq<Text>, wanted: iset<Text>) {
    && (forall i, j :: 0 <= i < j < |ids| ==> Before(ids[i], ids[j]))
    && (forall d :: d in ids <==> d in wanted)
  }

  ghost function Attempts(events: History, id: Text): iset<Text> {
    iset d | Attempted(events, id, d)
  }

  ghost function OpenAttempts(events: History, id: Text): iset<Text> {
    iset d | OpenUnder(events, id, d)
  }

  ghost predicate OpenUnder(events: History, id: Text, d: Text) {
    exists i :: IsOpen(events, i, id) && events[i].body.start.dispatchId == d
  }

  /** Every attempt that may have committed asked for exactly this request, under core compare-and-swap. */
  ghost predicate AllProtected(events: History, id: Text, request: RequestFacts) {
    forall i :: IsOpen(events, i, id) ==> CoreCas(events[i].body.start.request) && events[i].body.start.request == request
  }

  ghost predicate Spent(events: History, id: Text, decisionId: Text) {
    exists i :: IsAttempt(events, i, id) && events[i].body.start.basis == AcceptedRisk(decisionId)
  }

  /** The i-th event accepts the risk of this candidate now: for this operation, about exactly the attempts made
      so far, for a request of this fingerprint, not expired, and not yet spent. */
  ghost predicate Accepts(events: History, i: int, id: Text, candidate: Candidate, now: int) {
    && 0 <= i < |events| && events[i].body.RiskAccepted?
    && var risk := events[i].body.risk;
      && risk.operationId == id
      && risk.expiresAt >= now && risk.fingerprint == candidate.fingerprint
      && NoDuplicates(risk.priorDispatchIds)
      && (forall d :: d in risk.priorDispatchIds <==> Attempted(events, id, d))
      && !Spent(events, id, risk.decisionId)
  }

  ghost predicate FirstAccepts(events: History, i: int, id: Text, candidate: Candidate, now: int) {
    Accepts(events, i, id, candidate, now) && forall j :: 0 <= j < i ==> !Accepts(events, j, id, candidate, now)
  }

  /** The one lawful reason for one more attempt, if there is any. */
  ghost predicate Warrants(events: History, id: Text, candidate: Candidate, now: int, basis: Basis) {
    match basis
    case Initial => !AnyAttempt(events, id)
    case NonCommit(ids) => AnyAttempt(events, id) && !MayHaveCommitted(events, id) && Lists(ids, Attempts(events, id))
    case ProtectedReplay(ids) =>
      MayHaveCommitted(events, id) && AllProtected(events, id, candidate.facts) && Lists(ids, OpenAttempts(events, id))
    case AcceptedRisk(decisionId) =>
      && MayHaveCommitted(events, id) && !AllProtected(events, id, candidate.facts)
      && exists i :: FirstAccepts(events, i, id, candidate, now) && events[i].body.risk.decisionId == decisionId
  }

  // ---- Lists of identities ----

  /** Sorting a list without repetition lists exactly its elements, and nothing else does. */
  lemma SortLists(ids: seq<Text>, all: seq<Text>, wanted: iset<Text>)
    requires NoDuplicates(all)
    requires forall d :: d in all <==> d in wanted
    ensures ids == Sort(all) <==> Lists(ids, wanted)
  {
    hide Before, Ordered, Sort;
    SortOrdered(all);
    StrictlyOrdered(ids);
    SameElements(ids, all);
    if Lists(ids, wanted) {
      OrderedUnique(ids, Sort(all));
    }
  }

  // ---- The gathered facts say the same ----

  lemma StartIdsAreAttempts(plan: Plan, events: History, id: Text)
    requires Lawful(plan, events)
    ensures var ids := StartIds(FactsOf(events, id).starts);
      && NoDuplicates(ids)
      && (forall d :: d in ids <==> d in Attempts(events, id))
  {
    hide Lawful, FactsOf, Attempted;
    LawfulFactsAgree(plan, events, id);
    var starts := FactsOf(events, id).starts;
    var ids := StartIds(starts);
    forall d ensures d in ids <==> d in Attempts(events, id) {
      AttemptedIsDispatched(events, id, d);
      if d in ids {
        var i :| 0 <= i < |ids| && ids[i] == d;
        assert starts[i].dispatchId == d;
      }
      if Dispatched(starts, d) {
        var i :| 0 <= i < |starts| && starts[i].dispatchId == d;
        assert ids[i] == d;
      }
    }
  }

  lemma {:induction false} UnresolvedDistinct(starts: seq<Started>, rejected: set<Text>)
    requires forall i, j :: 0 <= i < j < |starts| ==> starts[i].dispatchId != starts[j].dispatchId
    ensures var ids := StartIds(Unresolved(starts, rejected));
      NoDuplicates(ids)
  {
    if starts != [] {
      var prior, last := starts[..|starts| - 1], starts[|starts| - 1];
      UnresolvedDistinct(prior, rejected);
      var before := Unresolved(prior, rejected);
      forall i | 0 <= i < |before| ensures before[i].dispatchId != last.dispatchId {
        assert before[i] in prior;
        var k :| 0 <= k < |prior| && prior[k] == before[i];
        assert starts[k] == before[i];
      }
      assert StartIds(before + [last]) == StartIds(before) + [last.dispatchId];
    }
  }

  lemma UnresolvedIdsAreOpen(plan: Plan, events: History, id: Text)
    requires Lawful(plan, events)
    ensures var f := FactsOf(events, id);
      var ids := StartIds(Unresolved(f.starts, f.rejected));
      && NoDuplicates(ids)
      && (forall d :: d in ids <==> d in OpenAttempts(events, id))
  {
    hide Lawful, FactsOf, Unresolved, HasRejection;
    LawfulFactsAgree(plan, events, id);
    var f := FactsOf(events, id);
    UnresolvedDistinct(f.starts, f.rejected);
    var unresolved := Unresolved(f.starts, f.rejected);
    var ids := StartIds(unresolved);
    forall d ensures d in ids <==> d in OpenAttempts(events, id) {
      if d in ids {
        var k :| 0 <= k < |ids| && ids[k] == d;
        OpenIsUnresolved(plan, events, id, unresolved[k]);
      }
      if i :| IsOpen(events, i, id) && events[i].body.start.dispatchId == d {
        OpenIsUnresolved(plan, events, id, events[i].body.start);
        var k :| 0 <= k < |unresolved| && unresolved[k] == events[i].body.start;
        assert ids[k] == d;
      }
    }
  }

  lemma ProtectedMeans(plan: Plan, events: History, id: Text, request: RequestFacts)
    requires Lawful(plan, events)
    ensures var f := FactsOf(events, id);
      AllProtectedBy(Unresolved(f.starts, f.rejected), request) <==> AllProtected(events, id, request)
  {
    hide Lawful, FactsOf, Unresolved, HasRejection;
    var f := FactsOf(events, id);
    var unresolved := Unresolved(f.starts, f.rejected);
    if AllProtectedBy(unresolved, request) {
      forall i | IsOpen(events, i, id)
        ensures CoreCas(events[i].body.start.request) && events[i].body.start.request == request
      {
        OpenIsUnresolved(plan, events, id, events[i].body.start);
        var k :| 0 <= k < |unresolved| && unresolved[k] == events[i].body.start;
      }
    }
    if AllProtected(events, id, request) {
      forall k | 0 <= k < |unresolved| ensures SameProtectedRequest(unresolved[k].request, request) {
        OpenIsUnresolved(plan, events, id, unresolved[k]);
      }
    }
  }

  lemma {:induction false} SpentIsConsumed(events: History, id: Text, decisionId: Text)
    ensures decisionId in FactsOf(events, id).consumed <==> Spent(events, id, decisionId)
  {
    if events != [] {
      var prior, last := events[..|events| - 1], events[|events| - 1];
      SpentIsConsumed(prior, id, decisionId);
      assert forall j :: 0 <= j < |prior| ==> prior[j] == events[j];
      assert forall j :: IsAttempt(events, j, id) <==> IsAttempt(prior, j, id) || (j == |prior| && IsAttempt(events, j, id));
      if last.body.DispatchStarted? && last.body.start.operationId == id {
        assert IsAttempt(events, |prior|, id);
      }
    }
  }

  /** A gathered risk decision covers the candidate and is unspent. */
  predicate Usable(r: Risk, f: Facts, candidate: Candidate, now: int) {
    r.decisionId !in f.consumed && Covers(r, f, candidate, now)
  }

  lemma UsableMeans(plan: Plan, events: History, i: int, id: Text, candidate: Candidate, now: int)
    requires Lawful(plan, events)
    requires 0 <= i < |events| && events[i].body.RiskAccepted? && events[i].body.risk.operationId == id
    ensures Usable(events[i].body.risk, FactsOf(events, id), candidate, now) <==> Accepts(events, i, id, candidate, now)
  {
    hide Lawful, FactsOf, Attempted, Spent, SameStrings;
    SpentIsConsumed(events, id, events[i].body.risk.decisionId);
    BindsAttempts(plan, events, id, events[i].body.risk.priorDispatchIds);
  }

  /** The i-th event is the operation's first risk decision that these facts make usable. */
  ghost predicate FirstUsable(events: History, i: int, id: Text, f: Facts, candidate: Candidate, now: int) {
    && IsRisk(events, i, id) && Usable(events[i].body.risk, f, candidate, now)
    && forall j :: 0 <= j < i && IsRisk(events, j, id) ==> !Usable(events[j].body.risk, f, candidate, now)
  }

  predicate IsRisk(events: History, i: int, id: Text) {
    0 <= i < |events| && events[i].body.RiskAccepted? && events[i].body.risk.operationId == id
  }

  lemma {:induction false} FindSnoc(risks: seq<Risk>, r: Risk, f: Facts, candidate: Candidate, now: int)
    ensures FindRisk(risks + [r], f, candidate, now)
         == if FindRisk(risks, f, candidate, now).Some? then FindRisk(risks, f, candidate, now)
            else if Usable(r, f, candidate, now) then Some(r) else None
  {
    if risks == [] {
      assert risks + [r] == [r];
    } else {
      assert (risks + [r])[1..] == risks[1..] + [r];
      FindSnoc(risks[1..], r, f, candidate, now);
    }
  }

  /** Searching the gathered decisions finds the first usable one of the history. */
  lemma {:induction false} FoundIsFirst(events: History, id: Text, f: Facts, candidate: Candidate, now: int) returns (i: int)
    ensures var found := FindRisk(FactsOf(events, id).risks, f, candidate, now);
      && (found.Some? ==> FirstUsable(events, i, id, f, candidate, now) && events[i].body.risk == found.value)
      && (found.None? ==> forall j :: IsRisk(events, j, id) ==> !Usable(events[j].body.risk, f, candidate, now))
  {
    i := 0;
    hide Usable, Covers;
    if events != [] {
      var prior, last := events[..|events| - 1], events[|events| - 1];
      i := FoundIsFirst(prior, id, f, candidate, now);
      assert forall j :: 0 <= j < |prior| ==> prior[j] == events[j];
      var risks := FactsOf(prior, id).risks;
      if IsRisk(events, |prior|, id) {
        FindSnoc(risks, last.body.risk, f, candidate, now);
        if FindRisk(risks, f, candidate, now).None? {
          i := |prior|;
        }
      } else {
        assert FactsOf(events, id).risks == risks;
      }
    }
  }

  lemma RiskMeans(plan: Plan, events: History, id: Text, candidate: Candidate, now: int, decisionId: Text)
    requires Lawful(plan, events)
    ensures var f := FactsOf(events, id);
      var found := FindRisk(f.risks, f, candidate, now);
      && (found.Some? && found.value.decisionId == decisionId
          <==> exists i :: FirstAccepts(events, i, id, candidate, now) && events[i].body.risk.decisionId == decisionId)
      && (found.None? <==> forall i :: !Accepts(events, i, id, candidate, now))
  {
    hide Lawful, FactsOf, Usable, Accepts, FindRisk;
    var f := FactsOf(events, id);
    var i := FoundIsFirst(events, id, f, candidate, now);
    forall j | IsRisk(events, j, id)
      ensures Usable(events[j].body.risk, f, candidate, now) <==> Accepts(events, j, id, candidate, now)
    {
      UsableMeans(plan, events, j, id, candidate, now);
    }
    forall j | Accepts(events, j, id, candidate, now) ensures IsRisk(events, j, id) {
      AcceptsIsRisk(events, j, id, candidate, now);
    }
    if FindRisk(f.risks, f, candidate, now).Some? {
      assert FirstAccepts(events, i, id, candidate, now);
      forall j | FirstAccepts(events, j, id, candidate, now) ensures j == i {
      }
    }
  }

  lemma AcceptsIsRisk(events: History, j: int, id: Text, candidate: Candidate, now: int)
    requires Accepts(events, j, id, candidate, now)
    ensures IsRisk(events, j, id)
  {
  }

  // ---- The decision ----

  /** With a candidate and no receipt, the next attempt is the one that is warranted; with none, risk is asked for. */
  lemma CandidateMeans(plan: Plan, events: History, id: Text, status: OperationStatus, candidate: Candidate, now: int, basis: Basis)
    requires Lawful(plan, events)
    ensures var f := FactsOf(events, id);
      DecideCandidate(f, status, candidate, now) == AppendDispatch(basis)
      <==> !AnyReceipt(events, id) && Warrants(events, id, candidate, now, basis)
  {
    hide Lawful, FactsOf, Unresolved, FindRisk, Attempts, OpenAttempts, Lists, AnyReceipt, AnyAttempt, MayHaveCommitted,
         AllProtected, AllProtectedBy, FirstAccepts;
    var f := FactsOf(events, id);
    SatisfiedReceiptMeans(plan, events, id);
    AnyAttemptIsStart(events, id);
    AllRejectedMeans(plan, events, id);
    OpenIsAttempt(events, id);
    ProtectedMeans(plan, events, id, candidate.facts);
    match basis {
      case Initial =>
      case NonCommit(ids) =>
        StartIdsAreAttempts(plan, events, id);
        SortLists(ids, StartIds(f.starts), Attempts(events, id));
      case ProtectedReplay(ids) =>
        UnresolvedIdsAreOpen(plan, events, id);
        SortLists(ids, StartIds(Unresolved(f.starts, f.rejected)), OpenAttempts(events, id));
      case AcceptedRisk(decisionId) =>
        RiskMeans(plan, events, id, candidate, now, decisionId);
    }
  }

  /** Nothing ends the operation, and everything it depends on is Satisfied. */
  ghost predicate Ready(plan: Plan, events: History, o: Operation, kind: ScopeKind) {
    && OperationStatusIn(events, o.operationId, kind) in {Unattempted, Rejected, Inconclusive}
    && forall d :: d in o.dependsOn ==> OperationStatusIn(events, d, kind) == Satisfied
  }

  /** A dispatch is decided exactly for a ready operation of the plan without a receipt, and on the basis the
      recorded events warrant. */
  lemma DispatchMeans(plan: Plan, events: History, id: Text, candidate: Candidate, now: int, kind: ScopeKind, basis: Basis)
    requires Lawful(plan, events)
    ensures DispatchDecision(plan, events, id, Some(candidate), now, kind) == Ok(AppendDispatch(basis))
       <==> && FindOperation(plan.operations, id).Some?
            && Ready(plan, events, FindOperation(plan.operations, id).value, kind)
            && !AnyReceipt(events, id)
            && Warrants(events, id, candidate, now, basis)
  {
    hide Lawful, OperationStatusIn, DecideCandidate, AnyReceipt, Warrants;
    CandidateMeans(plan, events, id, OperationStatusIn(events, id, kind), candidate, now, basis);
    var found := FindOperation(plan.operations, id);
    if found.Some? {
      DependenciesMean(events, found.value.dependsOn, kind);
    }
  }

  lemma DependenciesMean(events: History, dependsOn: seq<Text>, kind: ScopeKind)
    ensures DependenciesSatisfied(events, dependsOn, kind)
       <==> forall d :: d in dependsOn ==> OperationStatusIn(events, d, kind) == Satisfied
  {
    hide OperationStatusIn;
    if DependenciesSatisfied(events, dependsOn, kind) {
      forall d | d in dependsOn ensures OperationStatusIn(events, d, kind) == Satisfied {
        var i :| 0 <= i < |dependsOn| && dependsOn[i] == d;
      }
    }
  }

  /** The other answers: an ended operation, a missing dependency, a request still to be prepared, risk to be accepted. */
  lemma OtherDecisions(plan: Plan, events: History, id: Text, candidate: Option<Candidate>, now: int, kind: ScopeKind)
    requires Lawful(plan, events) && FindOperation(plan.operations, id).Some?
    ensures var o, status := FindOperation(plan.operations, id).value, OperationStatusIn(events, id, kind);
      var next := DispatchDecision(plan, events, id, candidate, now, kind);
      && next.Ok?
      && (status in {Superseded, Satisfied, Conflict, Pending} ==> next == Ok(Finish(status)))
      && (status !in {Superseded, Satisfied, Conflict, Pending} ==>
            && ((exists d :: d in o.dependsOn && OperationStatusIn(events, d, kind) != Satisfied) ==> next == Ok(Finish(Pending)))
            && (next == Ok(PrepareDispatch) <==> Ready(plan, events, o, kind) && candidate.None?)
            && (next == Ok(RequestRiskAcceptance) <==>
                  && Ready(plan, events, o, kind) && candidate.Some? && !AnyReceipt(events, id)
                  && forall basis :: !Warrants(events, id, candidate.value, now, basis)))
  {
    hide Lawful, OperationStatusIn, DecideCandidate, AnyReceipt, Warrants;
    var o := FindOperation(plan.operations, id).value;
    DependenciesMean(events, o.dependsOn, kind);
    if candidate.Some? {
      RiskAsked(plan, events, id, OperationStatusIn(events, id, kind), candidate.value, now);
    }
  }

  lemma RiskAsked(plan: Plan, events: History, id: Text, status: OperationStatus, candidate: Candidate, now: int)
    requires Lawful(plan, events)
    ensures DecideCandidate(FactsOf(events, id), status, candidate, now) == RequestRiskAcceptance
       <==> !AnyReceipt(events, id) && forall basis :: !Warrants(events, id, candidate, now, basis)
    ensures DecideCandidate(FactsOf(events, id), status, candidate, now) != PrepareDispatch
  {
    hide Lawful, FactsOf, Unresolved, AnyReceipt, Warrants, FindRisk, AllProtectedBy;
    SatisfiedReceiptMeans(plan, events, id);
    var next := DecideCandidate(FactsOf(events, id), status, candidate, now);
    forall basis ensures next == AppendDispatch(basis) <==> !AnyReceipt(events, id) && Warrants(events, id, candidate, now, basis) {
      CandidateMeans(plan, events, id, status, candidate, now, basis);
    }
    if next.AppendDispatch? {
      assert Warrants(events, id, candidate, now, next.basis);
    }
  }

  // ---- Which events may follow ----

  /** The event may follow the first k of a plan's history, under this kind of scope. */
  ghost predicate MayFollow(plan: Plan, events: History, k: int, kind: ScopeKind)
    requires 0 <= k < |events|
  {
    var prior, event := events[..k], events[k];
    && event.planId == plan.planId
    && (forall i :: 0 <= i < k ==> events[i].eventId != event.eventId)
    && match event.body
       case DispatchStarted(s) =>
         && 0 <= s.startedAt <= 0x1F_FFFF_FFFF_FFFF
         && (forall i :: 0 <= i < k && events[i].body.DispatchStarted? ==> events[i].body.start.dispatchId != s.dispatchId)
         && FindOperation(plan.operations, s.operationId).Some?
         && Ready(plan, prior, FindOperation(plan.operations, s.operationId).value, kind)
         && !AnyReceipt(prior, s.operationId)
         && Warrants(prior, s.operationId, Candidate(s.request, s.fingerprint), s.startedAt, s.basis)
       case ReceiptAccepted(r) => AwaitsEvidence(events, k, r.dispatchId)
       case DispatchRejectedBeforeCommit(r) => AwaitsEvidence(events, k, r.dispatchId)
       case ObservationRecorded(o) =>
         FindOperation(plan.operations, o.operationId).Some? && 0 <= o.observedAt <= 0x1F_FFFF_FFFF_FFFF
       case RiskAccepted(r) =>
         && FindOperation(plan.operations, r.operationId).Some?
         && 0 <= r.expiresAt <= 0x1F_FFFF_FFFF_FFFF && r.principal != []
         && !SupersededIn(prior) && AnyAttempt(prior, r.operationId) && !AnyReceipt(prior, r.operationId)
         && NoDuplicates(r.priorDispatchIds)
         && (forall d :: d in r.priorDispatchIds <==> Attempted(prior, r.operationId, d))
         && (forall i :: 0 <= i < k && events[i].body.RiskAccepted? ==> events[i].body.risk.decisionId != r.decisionId)
       case PlanSuperseded(_) => !SupersededIn(prior)
  }

  /** The dispatch was started, and neither a receipt nor a rejection of it is recorded. */
  ghost predicate AwaitsEvidence(events: History, k: int, d: Text)
    requires 0 <= k < |events|
  {
    && (exists i :: 0 <= i < k && events[i].body.DispatchStarted? && events[i].body.start.dispatchId == d)
    && (forall i :: 0 <= i < k && events[i].body.ReceiptAccepted? ==> events[i].body.receipt.dispatchId != d)
    && (forall i :: 0 <= i < k && events[i].body.DispatchRejectedBeforeCommit? ==> events[i].body.rejection.dispatchId != d)
  }

  lemma AwaitsMeans(events: History, k: int, d: Text)
    requires 0 <= k < |events|
    ensures AwaitsEvidence(events, k, d)
       <==> HasStart(events[..k], d) && !HasReceipt(events[..k], d) && !HasRejection(events[..k], d)
  {
    assert forall i :: 0 <= i < k ==> events[..k][i] == events[i];
    if i :| 0 <= i < k && events[i].body.DispatchStarted? && events[i].body.start.dispatchId == d {
      assert events[..k][i].body.DispatchStarted?;
    }
    if i :| 0 <= i < k && events[i].body.ReceiptAccepted? && events[i].body.receipt.dispatchId == d {
      assert events[..k][i].body.ReceiptAccepted?;
    }
    if i :| 0 <= i < k && events[i].body.DispatchRejectedBeforeCommit? && events[i].body.rejection.dispatchId == d {
      assert events[..k][i].body.DispatchRejectedBeforeCommit?;
    }
  }

  lemma NamesMean(events: History, k: int)
    requires 0 <= k < |events|
    ensures HasEventId(events[..k], events[k].eventId) <==> exists i :: 0 <= i < k && events[i].eventId == events[k].eventId
    ensures forall d ::
      HasStart(events[..k], d) <==> (exists i :: 0 <= i < k && events[i].body.DispatchStarted? && events[i].body.start.dispatchId == d)
    ensures forall d ::
      HasDecision(events[..k], d) <==> (exists i :: 0 <= i < k && events[i].body.RiskAccepted? && events[i].body.risk.decisionId == d)
  {
    assert forall i :: 0 <= i < k ==> events[..k][i] == events[i];
  }

  /** One event is admitted exactly when it may follow. */
  lemma AppendMeans(plan: Plan, events: History, k: int, kind: ScopeKind)
    requires 0 <= k < |events| && Lawful(plan, events[..k])
    ensures AssertJournalAppend(plan, events[..k], events[k], kind).Ok? <==> MayFollow(plan, events, k, kind)
  {
    hide Lawful, HasEventId, HasStart, HasReceipt, HasRejection, HasDecision, FactsOf, OperationStatusIn, DispatchDecision,
         AnyReceipt, Warrants, Ready, AnyAttempt, Attempted;
    var prior, event := events[..k], events[k];
    NamesMean(events, k);
    match event.body {
      case DispatchStarted(s) =>
        DispatchMeans(plan, prior, s.operationId, Candidate(s.request, s.fingerprint), s.startedAt, kind, s.basis);
      case ReceiptAccepted(r) => AwaitsMeans(events, k, r.dispatchId);
      case DispatchRejectedBeforeCommit(r) => AwaitsMeans(events, k, r.dispatchId);
      case RiskAccepted(r) => RiskAppendMeans(plan, prior, r, kind);
      case _ =>
    }
  }

  lemma RiskAppendMeans(plan: Plan, prior: History, r: Risk, kind: ScopeKind)
    requires Lawful(plan, prior)
    ensures AssertRisk(prior, r, kind).Ok? <==>
      && 0 <= r.expiresAt <= 0x1F_FFFF_FFFF_FFFF && r.principal != [] && !HasDecision(prior, r.decisionId)
      && !SupersededIn(prior) && AnyAttempt(prior, r.operationId) && !AnyReceipt(prior, r.operationId)
      && NoDuplicates(r.priorDispatchIds)
      && (forall d :: d in r.priorDispatchIds <==> Attempted(prior, r.operationId, d))
  {
    hide Lawful, FactsOf, HasDecision, AnyReceipt, AnyAttempt, Attempted, SameStrings, OperationStatusIn;
    SatisfiedReceiptMeans(plan, prior, r.operationId);
    AnyAttemptIsStart(prior, r.operationId);
    BindsAttempts(plan, prior, r.operationId, r.priorDispatchIds);
    SupersededStatus(prior, r.operationId, kind);
  }

  /** A list is a permutation of the gathered start identities exactly when it names each attempt once. */
  lemma BindsAttempts(plan: Plan, events: History, id: Text, ids: seq<Text>)
    requires Lawful(plan, events)
    ensures SameStrings(ids, StartIds(FactsOf(events, id).starts)) <==>
      && NoDuplicates(ids)
      && (forall d :: d in ids <==> Attempted(events, id, d))
  {
    hide Lawful, FactsOf, Attempted, Sort;
    var all := StartIds(FactsOf(events, id).starts);
    StartIdsAreAttempts(plan, events, id);
    SortCanonical(ids, all);
    SameElements(ids, all);
  }

  lemma SupersededStatus(events: History, id: Text, kind: ScopeKind)
    ensures OperationStatusIn(events, id, kind) == Superseded <==> SupersededIn(events)
  {
    hide FactsOf;
  }

  /** A history is admitted exactly when each of its events may follow those before it. */
  lemma {:induction false} AdmittedExactly(plan: Plan, events: History, kind: ScopeKind)
    ensures Admitted(plan, events, kind) <==> forall k :: 0 <= k < |events| ==> MayFollow(plan, events, k, kind)
  {
    hide MayFollow, AssertJournalAppend;
    if events != [] {
      var n := |events| - 1;
      var prior := events[..n];
      AdmittedExactly(plan, prior, kind);
      forall k | 0 <= k < n ensures MayFollow(plan, prior, k, kind) <==> MayFollow(plan, events, k, kind) {
        MayFollowPrefix(plan, prior, events, k, kind);
      }
      if Admitted(plan, prior, kind) {
        AdmittedIsLawful(plan, prior, kind);
        AppendMeans(plan, events, n, kind);
      }
    }
  }

  lemma MayFollowPrefix(plan: Plan, prior: History, events: History, k: int, kind: ScopeKind)
    requires prior <= events && 0 <= k < |prior|
    ensures MayFollow(plan, prior, k, kind) <==> MayFollow(plan, events, k, kind)
  {
    hide Ready, Warrants, AnyReceipt, AnyAttempt, Attempted;
    assert prior[..k] == events[..k];
    assert forall i :: 0 <= i <= k ==> prior[i] == events[i];
  }

  /** Of every lawful history, whichever kinds of scope wrote it: a started operation was ready, all it depends on
      was Satisfied, it had no receipt, and its basis was warranted. */
  lemma StartWasReady(plan: Plan, events: History, j: int) returns (o: Operation, kind: ScopeKind)
    requires Lawful(plan, events) && 0 <= j < |events| && events[j].body.DispatchStarted?
    ensures o in plan.operations && o.operationId == events[j].body.start.operationId
    ensures Ready(plan, events[..j], o, kind) && !AnyReceipt(events[..j], o.operationId)
    ensures var s := events[j].body.start;
      Warrants(events[..j], s.operationId, Candidate(s.request, s.fingerprint), s.startedAt, s.basis)
  {
    hide AssertJournalAppend, Ready, Warrants, AnyReceipt;
    LawfulAt(plan, events, j);
    AppendMeans(plan, events, j, PublicationScope);
    AppendMeans(plan, events, j, PreparationScope);
    kind := if MayFollow(plan, events, j, PublicationScope) then PublicationScope else PreparationScope;
    o := FindOperation(plan.operations, events[j].body.start.operationId).value;
  }
}
