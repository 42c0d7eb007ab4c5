/** Accepted risk, receipts, supersession and preparation status over whole histories. */
module RiskLaws {
  import opened Texts
  import opened JsonData
  import opened ReleaseModel
  import opened Decision
  import opened HistoryLaws

  // ---- Each recorded risk decision is spent at most once ----

  lemma HasDecisionSnoc(events: History, e: Event, d: Text)
    ensures HasDecision(events + [e], d)
       <==> HasDecision(events, d) || (e.body.RiskAccepted? && e.body.risk.decisionId == d)
  {
    if HasDecision(events, d) {
      var i :| 0 <= i < |events| && events[i].body.RiskAccepted? && events[i].body.risk.decisionId == d;
      assert (events + [e])[i] == events[i];
    }
    assert (events + [e])[|events|] == e;
  }

  lemma SameStringsSameLength(left: seq<Text>, right: seq<Text>)
    requires SameStrings(left, right)
    ensures |left| == |right|
  {
    assert |multiset(left)| == |left| && |multiset(right)| == |right|;
  }

  lemma {:induction false} RisksRecorded(events: History, operationId: Text)
    ensures forall r :: r in FactsOf(events, operationId).risks
                   ==> r.operationId == operationId && exists i :: 0 <= i < |events| && events[i].body == RiskAccepted(r)
    ensures forall s :: s in FactsOf(events, operationId).starts && s.basis.AcceptedRisk?
                   ==> s.basis.decisionId in FactsOf(events, operationId).consumed
  {
    if events != [] {
      var prior := events[..|events| - 1];
      RisksRecorded(prior, operationId);
      forall r | r in FactsOf(events, operationId).risks
        ensures exists i :: 0 <= i < |events| && events[i].body == RiskAccepted(r)
      {
        if r in FactsOf(prior, operationId).risks {
          var i :| 0 <= i < |prior| && prior[i].body == RiskAccepted(r);
          assert events[i].body == RiskAccepted(r);
        } else {
          assert events[|events| - 1].body == RiskAccepted(r);
        }
      }
    }
  }

  lemma {:induction false} DecisionRecordedOnce(plan: Plan, events: History, i: nat, j: nat)
    requires Lawful(plan, events)
    requires i < |events| && j < |events| && events[i].body.RiskAccepted? && events[j].body.RiskAccepted?
    requires events[i].body.risk.decisionId == events[j].body.risk.decisionId
    ensures i == j
  {
    var prior, last := events[..|events| - 1], events[|events| - 1];
    if i < |prior| && j < |prior| {
      DecisionRecordedOnce(plan, prior, i, j);
    } else if i < |prior| {
      assert prior[i] == events[i];
      assert HasDecision(prior, last.body.risk.decisionId);
    } else if j < |prior| {
      assert prior[j] == events[j];
      assert HasDecision(prior, last.body.risk.decisionId);
    }
  }

  /** A spent decision was made about a strictly smaller attempt set. */
  ghost predicate SpentIsStale(events: History, f: Facts) {
    && (forall d :: d in f.consumed ==> HasDecision(events, d))
    && (forall r :: r in f.risks && r.decisionId in f.consumed ==> |r.priorDispatchIds| < |f.starts|)
  }

  lemma {:induction false} SpentDecisionsAreStale(plan: Plan, events: History, operationId: Text)
    requires Lawful(plan, events)
    ensures SpentIsStale(events, FactsOf(events, operationId))
  {
    if events != [] {
      var prior, last := events[..|events| - 1], events[|events| - 1];
      assert events == prior + [last];
      SpentDecisionsAreStale(plan, prior, operationId);
      forall d | HasDecision(prior, d) ensures HasDecision(events, d) {
        HasDecisionSnoc(prior, last, d);
      }
      if last.body.DispatchStarted? && last.body.start.operationId == operationId {
        SpendKeepsStale(plan, prior, last);
      }
    }
  }

  lemma SpendKeepsStale(plan: Plan, prior: History, last: Event)
    requires Lawful(plan, prior) && Admissible(plan, prior, last) && last.body.DispatchStarted?
    requires SpentIsStale(prior, FactsOf(prior, last.body.start.operationId))
    ensures SpentIsStale(prior, Extend(FactsOf(prior, last.body.start.operationId), last.body, last.body.start.operationId))
  {
    var s := last.body.start;
    var f := FactsOf(prior, s.operationId);
    var status := StartWasDecided(plan, prior, last);
    if s.basis.AcceptedRisk? {
      var found := DecidedRisk(f, status, s);
      RisksRecorded(prior, s.operationId);
      var k :| 0 <= k < |prior| && prior[k].body == RiskAccepted(found);
      forall r | r in f.risks && r.decisionId == found.decisionId ensures r == found {
        var m :| 0 <= m < |prior| && prior[m].body == RiskAccepted(r);
        DecisionRecordedOnce(plan, prior, k, m);
      }
    }
  }

  /** The decision an accepted-risk start was found by. */
  lemma DecidedRisk(f: Facts, status: OperationStatus, s: Started) returns (found: Risk)
    requires s.basis.AcceptedRisk?
    requires DecideCandidate(f, status, Candidate(s.request, s.fingerprint), s.startedAt) == AppendDispatch(s.basis)
    ensures found in f.risks && found.decisionId == s.basis.decisionId && found.decisionId !in f.consumed
    ensures |found.priorDispatchIds| == |f.starts|
  {
    found := FindRisk(f.risks, f, Candidate(s.request, s.fingerprint), s.startedAt).value;
    SameStringsSameLength(found.priorDispatchIds, StartIds(f.starts));
  }

  /** `facts.risks.find(...)` with the check for a consumed decision left out. */
  function FindCovering(risks: seq<Risk>, f: Facts, candidate: Candidate, now: int): Option<Risk> {
    if risks == [] then None
    else if Covers(risks[0], f, candidate, now) then Some(risks[0])
    else FindCovering(risks[1..], f, candidate, now)
  }

  lemma {:induction false} FindAgrees(risks: seq<Risk>, f: Facts, candidate: Candidate, now: int)
    requires forall r :: r in risks && r.decisionId in f.consumed ==> |r.priorDispatchIds| < |f.starts|
    ensures FindRisk(risks, f, candidate, now) == FindCovering(risks, f, candidate, now)
  {
    if risks != [] {
      if Covers(risks[0], f, candidate, now) {
        SameStringsSameLength(risks[0].priorDispatchIds, StartIds(f.starts));
        assert risks[0] in risks;
      }
      FindAgrees(risks[1..], f, candidate, now);
    }
  }

  /** On lawful histories the consumed-decision filter never changes what is found:
      binding the complete attempt set already makes a decision single-use. */
  lemma ConsumedFilterRedundant(plan: Plan, events: History, operationId: Text, candidate: Candidate, now: int)
    requires Lawful(plan, events)
    ensures var f := FactsOf(events, operationId);
      FindRisk(f.risks, f, candidate, now) == FindCovering(f.risks, f, candidate, now)
  {
    SpentDecisionsAreStale(plan, events, operationId);
    FindAgrees(FactsOf(events, operationId).risks, FactsOf(events, operationId), candidate, now);
  }

  /** The recorded decision behind an accepted-risk start. */
  lemma RiskBehind(plan: Plan, events: History, j: nat) returns (k: nat)
    requires Lawful(plan, events)
    requires j < |events| && events[j].body.DispatchStarted? && events[j].body.start.basis.AcceptedRisk?
    ensures k < j && events[k].body.RiskAccepted?
    ensures events[k].body.risk.decisionId == events[j].body.start.basis.decisionId
    ensures events[k].body.risk.operationId == events[j].body.start.operationId
    ensures events[j].body.start.basis.decisionId !in FactsOf(events[..j], events[j].body.start.operationId).consumed
  {
    var s := events[j].body.start;
    LawfulAt(plan, events, j);
    var f := FactsOf(events[..j], s.operationId);
    var status := StartWasDecided(plan, events[..j], events[j]);
    var found := DecidedRisk(f, status, s);
    RisksRecorded(events[..j], s.operationId);
    k :| 0 <= k < j && events[..j][k].body == RiskAccepted(found);
  }

  lemma {:induction false} LawfulAt(plan: Plan, events: History, j: nat)
    requires Lawful(plan, events) && j < |events|
    ensures Lawful(plan, events[..j]) && Admissible(plan, events[..j], events[j])
  {
    if j < |events| - 1 {
      LawfulAt(plan, events[..|events| - 1], j);
      assert events[..|events| - 1][..j] == events[..j];
    }
  }

  /** Each recorded risk decision justifies at most one start in the whole history. */
  lemma RiskJustifiesOneStart(plan: Plan, events: History, i: nat, j: nat)
    requires Lawful(plan, events)
    requires i < |events| && j < |events| && events[i].body.DispatchStarted? && events[j].body.DispatchStarted?
    requires events[i].body.start.basis.AcceptedRisk?
    requires events[i].body.start.basis == events[j].body.start.basis
    ensures i == j
  {
    if i < j {
      RiskNotSpentTwice(plan, events, i, j);
    } else if j < i {
      RiskNotSpentTwice(plan, events, j, i);
    }
  }

  lemma RiskNotSpentTwice(plan: Plan, events: History, i: nat, j: nat)
    requires Lawful(plan, events)
    requires i < j < |events| && events[i].body.DispatchStarted? && events[j].body.DispatchStarted?
    requires events[i].body.start.basis.AcceptedRisk?
    ensures events[i].body.start.basis != events[j].body.start.basis
  {
    if events[i].body.start.basis == events[j].body.start.basis {
      var k := RiskBehind(plan, events, i);
      var m := RiskBehind(plan, events, j);
      DecisionRecordedOnce(plan, events, k, m);
      var s := events[i].body.start;
      StartsRecorded(events[..j], s.operationId);
      assert events[..j][i].body == DispatchStarted(s);
      assert s in FactsOf(events[..j], s.operationId).starts;
      RisksRecorded(events[..j], s.operationId);
    }
  }

  // ---- A receipt, or supersession, ends dispatching ----

  lemma {:induction false} FactsGrow(events: History, more: History, operationId: Text)
    ensures var f, g := FactsOf(events, operationId), FactsOf(events + more, operationId);
      && f.starts <= g.starts && f.receipts <= g.receipts && f.observations <= g.observations
      && f.risks <= g.risks && f.rejected <= g.rejected && f.consumed <= g.consumed
    decreases |more|
  {
    if more == [] {
      assert events + more == events;
    } else {
      assert (events + more)[..|events + more| - 1] == events + more[..|more| - 1];
      FactsGrow(events, more[..|more| - 1], operationId);
    }
  }

  /** After any receipt for an operation, no lawful extension starts it again. */
  lemma {:induction false} ReceiptClosesOperation(plan: Plan, events: History, more: History, operationId: Text)
    requires Lawful(plan, events + more)
    requires FactsOf(events, operationId).receipts != []
    ensures FactsOf(events + more, operationId).starts == FactsOf(events, operationId).starts
    decreases |more|
  {
    if more == [] {
      assert events + more == events;
    } else {
      var prior := events + more[..|more| - 1];
      var last := more[|more| - 1];
      assert (events + more)[..|events + more| - 1] == prior;
      ReceiptClosesOperation(plan, events, more[..|more| - 1], operationId);
      if last.body.DispatchStarted? && last.body.start.operationId == operationId {
        FactsGrow(events, more[..|more| - 1], operationId);
        var status := StartWasDecided(plan, prior, last);
        assert false;
      }
    }
  }

  predicate AnyStart(events: History) {
    exists i :: 0 <= i < |events| && events[i].body.DispatchStarted?
  }

  /** Once superseded, a plan never records another dispatch. */
  lemma {:induction false} SupersessionIsFinal(plan: Plan, events: History, more: History)
    requires Lawful(plan, events + more) && SupersededIn(events)
    ensures !AnyStart(more) && SupersededIn(events + more)
    decreases |more|
  {
    var i :| 0 <= i < |events| && events[i].body.PlanSuperseded?;
    assert (events + more)[i].body.PlanSuperseded?;
    if more != [] {
      var prior := events + more[..|more| - 1];
      assert (events + more)[..|events + more| - 1] == prior;
      SupersessionIsFinal(plan, events, more[..|more| - 1]);
      forall j | 0 <= j < |more| ensures !more[j].body.DispatchStarted? {
        if j < |more| - 1 {
          assert more[..|more| - 1][j] == more[j];
        } else if more[j].body.DispatchStarted? {
          var status := StartWasDecided(plan, prior, more[j]);
        }
      }
    }
  }

  // ---- Status ----

  /** A preparation that is Satisfied stays Satisfied unless the plan is superseded. */
  lemma PreparationStatusIsSticky(events: History, more: History, operationId: Text)
    requires OperationStatusIn(events, operationId, PreparationScope) == Satisfied
    requires !SupersededIn(events + more)
    ensures OperationStatusIn(events + more, operationId, PreparationScope) == Satisfied
  {
    var f, g := FactsOf(events, operationId), FactsOf(events + more, operationId);
    FactsGrow(events, more, operationId);
    assert AnySatisfiedObservation(f.observations) || AnySatisfiedReceipt(f.receipts);
    if AnySatisfiedObservation(f.observations) {
      var i :| 0 <= i < |f.observations| && f.observations[i].status == Satisfied;
      assert g.observations[i].status == Satisfied;
    } else {
      var i :| 0 <= i < |f.receipts| && f.receipts[i].completion == Satisfied;
      assert g.receipts[i].completion == Satisfied;
    }
  }

  /** The events that take a Satisfied publication away: a supersession, or a look at this operation that
      reports anything else. A look that finds nothing definite does so only without a Satisfied receipt. */
  predicate Withdraws(events: History, operationId: Text, e: Event) {
    || e.body.PlanSuperseded?
    || (&& e.body.ObservationRecorded? && e.body.observation.operationId == operationId
        && e.body.observation.status != Satisfied
        && (e.body.observation.status in {Inconclusive, Absent}
            ==> !AnySatisfiedReceipt(FactsOf(events, operationId).receipts)))
  }

  /** A Satisfied publication stays Satisfied after one more event exactly when that event does not withdraw it. */
  lemma PublicationStaysSatisfiedIff(events: History, operationId: Text, e: Event)
    requires OperationStatusIn(events, operationId, PublicationScope) == Satisfied
    ensures OperationStatusIn(events + [e], operationId, PublicationScope) == Satisfied
       <==> !Withdraws(events, operationId, e)
  {
    hide FactsOf;
    var f, g := FactsOf(events, operationId), FactsOf(events + [e], operationId);
    FactsSnoc(events, e, operationId);
    SupersededSnoc(events, e);
    assert f.receipts <= g.receipts;
    if AnySatisfiedReceipt(f.receipts) {
      var i :| 0 <= i < |f.receipts| && f.receipts[i].completion == Satisfied;
      assert g.receipts[i].completion == Satisfied;
    }
    if e.body.ObservationRecorded? && e.body.observation.operationId == operationId {
      assert g.observations[|g.observations| - 1] == e.body.observation && g.receipts == f.receipts;
    }
  }

  lemma SupersededSnoc(events: History, e: Event)
    ensures SupersededIn(events + [e]) <==> SupersededIn(events) || e.body.PlanSuperseded?
  {
    if SupersededIn(events) {
      var i :| 0 <= i < |events| && events[i].body.PlanSuperseded?;
      assert (events + [e])[i] == events[i];
    }
    assert (events + [e])[|events|] == e;
  }

  /** Over any extension: Satisfied at every moment exactly when no event withdraws it. */
  lemma PublicationSatisfiedThroughoutIff(events: History, more: History, operationId: Text)
    requires OperationStatusIn(events, operationId, PublicationScope) == Satisfied
    ensures (forall k :: 0 <= k <= |more| ==> OperationStatusIn(events + more[..k], operationId, PublicationScope) == Satisfied)
       <==> (forall k :: 0 <= k < |more| ==> !Withdraws(events + more[..k], operationId, more[k]))
  {
    hide OperationStatusIn, Withdraws;
    if (forall k :: 0 <= k <= |more| ==> OperationStatusIn(events + more[..k], operationId, PublicationScope) == Satisfied) {
      forall k | 0 <= k < |more| ensures !Withdraws(events + more[..k], operationId, more[k]) {
        assert events + more[..k + 1] == events + more[..k] + [more[k]];
        PublicationStaysSatisfiedIff(events + more[..k], operationId, more[k]);
      }
    }
    if (forall k :: 0 <= k < |more| ==> !Withdraws(events + more[..k], operationId, more[k])) {
      assert events + more[..0] == events;
      for k := 0 to |more|
        invariant forall i :: 0 <= i <= k ==> OperationStatusIn(events + more[..i], operationId, PublicationScope) == Satisfied
      {
        assert events + more[..k + 1] == events + more[..k] + [more[k]];
        PublicationStaysSatisfiedIff(events + more[..k], operationId, more[k]);
      }
    }
  }

  function Look(operationId: Text, status: ObservationStatus): Body {
    ObservationRecorded(Observed(operationId, Observation, None, status, [], Null, 0))
  }

  /** Publication status is not monotone: one later inconclusive look withdraws Satisfied. */
  lemma PublicationSatisfiedCanBeWithdrawn(plan: Plan, operation: Operation)
    requires plan.operations == [operation]
    ensures exists events, more ::
      && Admitted(plan, events + more, PublicationScope)
      && OperationStatusIn(events, operation.operationId, PublicationScope) == Satisfied
      && OperationStatusIn(events + more, operation.operationId, PublicationScope) == Unattempted
  {
    var id := operation.operationId;
    var first := Event([0], plan.journalId, plan.planId, Look(id, Satisfied));
    var second := Event([1], plan.journalId, plan.planId, Look(id, Inconclusive));
    var events, more := [first], [second];
    FactsSnoc([], first, id);
    FactsSnoc(events, second, id);
    assert [] + [first] == events && events[..0] == [];
    assert (events + more)[..1] == events;
    assert FindOperation(plan.operations, id) == Some(operation);
    assert NamedOperation(second.body) == Some(id);
    assert AssertJournalAppend(plan, [], first, PublicationScope).Ok?;
    assert AssertJournalAppend(plan, events, second, PublicationScope).Ok?;
    assert Admitted(plan, [], PublicationScope);
    assert Admitted(plan, events, PublicationScope);
    assert Admitted(plan, events + more, PublicationScope);
  }

  /** Status compares two sizes; on lawful histories they are equal exactly when every start was rejected. */
  lemma RejectedMeansEveryStartRejected(plan: Plan, events: History, operationId: Text)
    requires Lawful(plan, events)
    ensures var f := FactsOf(events, operationId);
      |f.rejected| == |f.starts| <==> Unresolved(f.starts, f.rejected) == []
  {
    LawfulFactsAgree(plan, events, operationId);
    SizesDecide(FactsOf(events, operationId).starts, FactsOf(events, operationId).rejected);
  }

  lemma SizesDecide(starts: seq<Started>, rejected: set<Text>)
    requires forall i, j :: 0 <= i < j < |starts| ==> starts[i].dispatchId != starts[j].dispatchId
    requires forall d :: d in rejected ==> Dispatched(starts, d)
    ensures |rejected| == |starts| <==> Unresolved(starts, rejected) == []
  {
    var ids := set s | s in starts :: s.dispatchId;
    DistinctIdsCount(starts);
    assert rejected <= ids;
    var unresolved := Unresolved(starts, rejected);
    assert unresolved != [] ==> unresolved[0] in unresolved && unresolved[0].dispatchId in ids - rejected;
    if |rejected| == |starts| {
      assert ids == rejected + (ids - rejected);
    }
    if unresolved == [] {
      forall s | s in starts ensures s.dispatchId in rejected {
        assert s !in unresolved;
      }
      assert ids == rejected;
    }
  }

  lemma {:induction false} DistinctIdsCount(starts: seq<Started>)
    requires forall i, j :: 0 <= i < j < |starts| ==> starts[i].dispatchId != starts[j].dispatchId
    ensures |set s | s in starts :: s.dispatchId| == |starts|
  {
    var ids := set s | s in starts :: s.dispatchId;
    if starts == [] {
      assert ids == {};
    } else {
      var prior, last := starts[..|starts| - 1], starts[|starts| - 1];
      var less := set s | s in prior :: s.dispatchId;
      DistinctIdsCount(prior);
      LastIdIsNew(prior, last, starts);
      assert ids == less + {last.dispatchId};
    }
  }

  lemma LastIdIsNew(prior: seq<Started>, last: Started, starts: seq<Started>)
    requires starts == prior + [last]
    requires forall i, j :: 0 <= i < j < |starts| ==> starts[i].dispatchId != starts[j].dispatchId
    ensures forall s :: s in prior ==> s.dispatchId != last.dispatchId
    ensures forall s :: s in starts <==> s in prior || s == last
  {
    forall s | s in prior ensures s.dispatchId != last.dispatchId {
      var i :| 0 <= i < |prior| && prior[i] == s;
      assert starts[i] == s && starts[|prior|] == last;
    }
  }

  /** Without accepted risk, an operation whose requests are not core compare-and-swap
      has at most one start that may have committed. */
  lemma AtMostOneUnresolved(plan: Plan, events: History, operationId: Text)
    requires Lawful(plan, events)
    requires forall i :: 0 <= i < |events| && events[i].body.RiskAccepted?
               ==> events[i].body.risk.operationId != operationId
    requires forall s :: s in FactsOf(events, operationId).starts ==> !CoreCas(s.request)
    ensures |Unresolved(FactsOf(events, operationId).starts, FactsOf(events, operationId).rejected)| <= 1
  {
    var f := FactsOf(events, operationId);
    ReplayBound(plan, events, operationId);
    UnprotectedIsExposed(f.starts, f.rejected);
    forall s | s in f.starts ensures !s.basis.AcceptedRisk? {
      StartsRecorded(events, operationId);
      var i :| 0 <= i < |events| && events[i].body == DispatchStarted(s);
      if s.basis.AcceptedRisk? {
        var k := RiskBehind(plan, events, i);
      }
    }
    NoRiskStarts(f.starts);
  }

  lemma {:induction false} UnprotectedIsExposed(starts: seq<Started>, rejected: set<Text>)
    requires forall s :: s in starts ==> !CoreCas(s.request)
    ensures Exposed(starts, rejected) == Unresolved(starts, rejected)
  {
    if starts != [] {
      UnprotectedIsExposed(starts[..|starts| - 1], rejected);
    }
  }

  lemma {:induction false} NoRiskStarts(starts: seq<Started>)
    requires forall s :: s in starts ==> !s.basis.AcceptedRisk?
    ensures RiskStarts(starts) == []
  {
    if starts != [] {
      NoRiskStarts(starts[..|starts| - 1]);
    }
  }
}
