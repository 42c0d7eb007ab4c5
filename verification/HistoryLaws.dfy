/** What every admitted history guarantees, whatever mix of events produced it. */
module HistoryLaws {
  import opened Texts
  import opened ReleaseModel
  import opened Decision

  /** Every event was admissible when appended, under one scope kind or the other:
      hosts that tag the plan differently may have written it. */
  ghost predicate Lawful(plan: Plan, events: History) {
    events == [] ||
    (&& Lawful(plan, events[..|events| - 1])
     && Admissible(plan, events[..|events| - 1], events[|events| - 1]))
  }

  /** Admissible for a host that tags the plan one way or the other. */
  predicate Admissible(plan: Plan, events: History, event: Event) {
    || AssertJournalAppend(plan, events, event, PublicationScope).Ok?
    || AssertJournalAppend(plan, events, event, PreparationScope).Ok?
  }

  lemma LawfulSnoc(plan: Plan, events: History, event: Event)
    requires Lawful(plan, events) && Admissible(plan, events, event)
    ensures Lawful(plan, events + [event])
  {
    assert (events + [event])[..|events|] == events;
  }

  lemma {:induction false} AdmittedIsLawful(plan: Plan, events: History, kind: ScopeKind)
    requires Admitted(plan, events, kind)
    ensures Lawful(plan, events)
  {
    if events != [] {
      AdmittedIsLawful(plan, events[..|events| - 1], kind);
    }
  }

  lemma {:induction false} LawfulPrefix(plan: Plan, events: History, more: History)
    requires Lawful(plan, events + more)
    ensures Lawful(plan, events)
    decreases |more|
  {
    if more == [] {
      assert events + more == events;
    } else {
      assert (events + more)[..|events + more| - 1] == events + more[..|more| - 1];
      LawfulPrefix(plan, events, more[..|more| - 1]);
    }
  }

  // ---- Membership: the projections name exactly the recorded events ----

  lemma {:induction false} StartsRecorded(events: History, operationId: Text)
    ensures forall s :: s in FactsOf(events, operationId).starts
                   <==> s.operationId == operationId && exists i :: 0 <= i < |events| && events[i].body == DispatchStarted(s)
  {
    if events != [] {
      var prior, last := events[..|events| - 1], events[|events| - 1];
      StartsRecorded(prior, operationId);
      forall s ensures s in FactsOf(events, operationId).starts
                   <==> s.operationId == operationId && exists i :: 0 <= i < |events| && events[i].body == DispatchStarted(s)
      {
        if i :| 0 <= i < |events| && events[i].body == DispatchStarted(s) {
          assert i < |prior| ==> prior[i].body == DispatchStarted(s);
        }
        if s in FactsOf(prior, operationId).starts {
          var i :| 0 <= i < |prior| && prior[i].body == DispatchStarted(s);
          assert events[i].body == DispatchStarted(s);
        }
        if last.body == DispatchStarted(s) {
          assert events[|events| - 1].body == DispatchStarted(s);
        }
      }
    }
  }

  lemma HasStartSnoc(events: History, e: Event, d: Text)
    ensures HasStart(events + [e], d)
       <==> HasStart(events, d) || (e.body.DispatchStarted? && e.body.start.dispatchId == d)
  {
    if HasStart(events, d) {
      var i :| 0 <= i < |events| && events[i].body.DispatchStarted? && events[i].body.start.dispatchId == d;
      assert (events + [e])[i] == events[i];
    }
    assert (events + [e])[|events|] == e;
  }

  lemma HasRejectionSnoc(events: History, e: Event, d: Text)
    ensures HasRejection(events + [e], d)
       <==> HasRejection(events, d) || (e.body.DispatchRejectedBeforeCommit? && e.body.rejection.dispatchId == d)
  {
    if HasRejection(events, d) {
      var i :| 0 <= i < |events| && events[i].body.DispatchRejectedBeforeCommit? && events[i].body.rejection.dispatchId == d;
      assert (events + [e])[i] == events[i];
    }
    assert (events + [e])[|events|] == e;
  }

  lemma HasReceiptSnoc(events: History, e: Event, d: Text)
    ensures HasReceipt(events + [e], d)
       <==> HasReceipt(events, d) || (e.body.ReceiptAccepted? && e.body.receipt.dispatchId == d)
  {
    if HasReceipt(events, d) {
      var i :| 0 <= i < |events| && events[i].body.ReceiptAccepted? && events[i].body.receipt.dispatchId == d;
      assert (events + [e])[i] == events[i];
    }
    assert (events + [e])[|events|] == e;
  }

  lemma DispatchedSnoc(starts: seq<Started>, s: Started, d: Text)
    ensures Dispatched(starts + [s], d) <==> Dispatched(starts, d) || s.dispatchId == d
  {
    if Dispatched(starts, d) {
      var i :| 0 <= i < |starts| && starts[i].dispatchId == d;
      assert (starts + [s])[i] == starts[i];
    }
    assert (starts + [s])[|starts|] == s;
  }

  lemma {:induction false} DispatchedHasStart(events: History, operationId: Text, d: Text)
    requires Dispatched(FactsOf(events, operationId).starts, d)
    ensures HasStart(events, d)
  {
    StartsRecorded(events, operationId);
    var starts := FactsOf(events, operationId).starts;
    var i :| 0 <= i < |starts| && starts[i].dispatchId == d;
    assert starts[i] in starts;
    var k :| 0 <= k < |events| && events[k].body == DispatchStarted(starts[i]);
    assert events[k].body.start.dispatchId == d;
  }

  /** In a lawful history, dispatch identities are unique across all operations. */
  ghost predicate DistinctStarts(events: History) {
    forall i, j :: 0 <= i < j < |events| && events[i].body.DispatchStarted? && events[j].body.DispatchStarted?
             ==> events[i].body.start.dispatchId != events[j].body.start.dispatchId
  }

  lemma {:induction false} LawfulDistinctStarts(plan: Plan, events: History)
    requires Lawful(plan, events)
    ensures DistinctStarts(events)
  {
    if events != [] {
      var prior, last := events[..|events| - 1], events[|events| - 1];
      LawfulDistinctStarts(plan, prior);
      forall i, j | 0 <= i < j < |events| && events[i].body.DispatchStarted? && events[j].body.DispatchStarted?
        ensures events[i].body.start.dispatchId != events[j].body.start.dispatchId
      {
        assert events[i] == prior[i];
        if j == |prior| {
          assert !HasStart(prior, last.body.start.dispatchId);
          assert prior[i].body.DispatchStarted?;
        } else {
          assert events[j] == prior[j];
        }
      }
    }
  }

  /** The facts of an operation, and the outcome of each of its dispatches. */
  ghost predicate FactsAgree(events: History, f: Facts) {
    && (forall i, j :: 0 <= i < j < |f.starts| ==> f.starts[i].dispatchId != f.starts[j].dispatchId)
    && (forall d :: d in f.rejected <==> Dispatched(f.starts, d) && HasRejection(events, d))
    && (forall i :: 0 <= i < |f.receipts|
          ==> Dispatched(f.starts, f.receipts[i].dispatchId) && HasReceipt(events, f.receipts[i].dispatchId))
    && (forall d :: Dispatched(f.starts, d) && HasReceipt(events, d)
                ==> exists i :: 0 <= i < |f.receipts| && f.receipts[i].dispatchId == d)
  }

  lemma {:induction false} EvidenceFollowsStart(plan: Plan, events: History, d: Text)
    requires Lawful(plan, events)
    requires HasRejection(events, d) || HasReceipt(events, d)
    ensures HasStart(events, d)
    ensures !(HasRejection(events, d) && HasReceipt(events, d))
  {
    var prior, last := events[..|events| - 1], events[|events| - 1];
    assert events == prior + [last];
    HasStartSnoc(prior, last, d);
    HasRejectionSnoc(prior, last, d);
    HasReceiptSnoc(prior, last, d);
    if HasRejection(prior, d) || HasReceipt(prior, d) {
      EvidenceFollowsStart(plan, prior, d);
    }
  }

  lemma {:induction false} LawfulFactsAgree(plan: Plan, events: History, operationId: Text)
    requires Lawful(plan, events)
    ensures FactsAgree(events, FactsOf(events, operationId))
  {
    if events != [] {
      var prior, last := events[..|events| - 1], events[|events| - 1];
      assert events == prior + [last];
      LawfulFactsAgree(plan, prior, operationId);
      hide FactsOf, Admissible;
      StartsStayDistinct(plan, prior, last, operationId);
      RejectionsStayRecorded(plan, prior, last, operationId);
      ReceiptsStayRecorded(plan, prior, last, operationId);
      RecordedReceiptsAreFacts(plan, prior, last, operationId);
    }
  }

  lemma StartsStayDistinct(plan: Plan, prior: History, last: Event, operationId: Text)
    requires Lawful(plan, prior) && Admissible(plan, prior, last)
    requires FactsAgree(prior, FactsOf(prior, operationId))
    ensures var g := FactsOf(prior + [last], operationId);
      forall i, j :: 0 <= i < j < |g.starts| ==> g.starts[i].dispatchId != g.starts[j].dispatchId
  {
    var f := FactsOf(prior, operationId);
    if last.body.DispatchStarted? && last.body.start.operationId == operationId {
      forall i | 0 <= i < |f.starts| ensures f.starts[i].dispatchId != last.body.start.dispatchId {
        if f.starts[i].dispatchId == last.body.start.dispatchId {
          DispatchedHasStart(prior, operationId, last.body.start.dispatchId);
        }
      }
    }
  }

  lemma RejectionsStayRecorded(plan: Plan, prior: History, last: Event, operationId: Text)
    requires Lawful(plan, prior) && Admissible(plan, prior, last)
    requires FactsAgree(prior, FactsOf(prior, operationId))
    ensures var g := FactsOf(prior + [last], operationId);
      forall d :: d in g.rejected <==> Dispatched(g.starts, d) && HasRejection(prior + [last], d)
  {
    hide FactsOf, Lawful, Admissible, HasRejection, Dispatched;
    var f, g := FactsOf(prior, operationId), FactsOf(prior + [last], operationId);
    forall d ensures d in g.rejected <==> Dispatched(g.starts, d) && HasRejection(prior + [last], d) {
      assert d in f.rejected <==> Dispatched(f.starts, d) && HasRejection(prior, d);
      RejectionStaysRecorded(plan, prior, last, operationId, d);
    }
  }

  /** One dispatch identity across one more event. */
  lemma RejectionStaysRecorded(plan: Plan, prior: History, last: Event, operationId: Text, d: Text)
    requires Lawful(plan, prior) && Admissible(plan, prior, last)
    requires var f := FactsOf(prior, operationId); d in f.rejected <==> Dispatched(f.starts, d) && HasRejection(prior, d)
    ensures var g := FactsOf(prior + [last], operationId);
      d in g.rejected <==> Dispatched(g.starts, d) && HasRejection(prior + [last], d)
  {
    hide FactsOf, Lawful, Admissible, HasRejection, Dispatched;
    var f := FactsOf(prior, operationId);
    FactsSnoc(prior, last, operationId);
    HasRejectionSnoc(prior, last, d);
    AgreeAtNewStart(plan, prior, last, f, d);
  }

  lemma ReceiptsStayRecorded(plan: Plan, prior: History, last: Event, operationId: Text)
    requires Lawful(plan, prior) && Admissible(plan, prior, last)
    requires FactsAgree(prior, FactsOf(prior, operationId))
    ensures var g := FactsOf(prior + [last], operationId);
      forall i :: 0 <= i < |g.receipts|
        ==> Dispatched(g.starts, g.receipts[i].dispatchId) && HasReceipt(prior + [last], g.receipts[i].dispatchId)
  {
    hide FactsOf, Lawful, Admissible, HasReceipt;
    FactsSnoc(prior, last, operationId);
    var f, g := FactsOf(prior, operationId), FactsOf(prior + [last], operationId);
    forall i | 0 <= i < |g.receipts|
      ensures Dispatched(g.starts, g.receipts[i].dispatchId) && HasReceipt(prior + [last], g.receipts[i].dispatchId)
    {
      HasReceiptSnoc(prior, last, g.receipts[i].dispatchId);
      if i < |f.receipts| {
        AgreeAtNewStart(plan, prior, last, f, g.receipts[i].dispatchId);
      }
    }
  }

  lemma RecordedReceiptsAreFacts(plan: Plan, prior: History, last: Event, operationId: Text)
    requires Lawful(plan, prior) && Admissible(plan, prior, last)
    requires FactsAgree(prior, FactsOf(prior, operationId))
    ensures var g := FactsOf(prior + [last], operationId);
      forall d :: Dispatched(g.starts, d) && HasReceipt(prior + [last], d)
        ==> exists i :: 0 <= i < |g.receipts| && g.receipts[i].dispatchId == d
  {
    hide FactsOf, Lawful, Admissible, HasReceipt;
    FactsSnoc(prior, last, operationId);
    var f, g := FactsOf(prior, operationId), FactsOf(prior + [last], operationId);
    forall d | Dispatched(g.starts, d) && HasReceipt(prior + [last], d)
      ensures exists i :: 0 <= i < |g.receipts| && g.receipts[i].dispatchId == d
    {
      HasReceiptSnoc(prior, last, d);
      AgreeAtNewStart(plan, prior, last, f, d);
      if Dispatched(f.starts, d) && HasReceipt(prior, d) {
        var i :| 0 <= i < |f.receipts| && f.receipts[i].dispatchId == d;
        assert g.receipts[i] == f.receipts[i];
      } else {
        assert g.receipts[|f.receipts|].dispatchId == d;
      }
    }
  }

  /** A new start is not yet anyone's evidence, and older identities keep their meaning. */
  lemma AgreeAtNewStart(plan: Plan, prior: History, last: Event, f: Facts, d: Text)
    requires Lawful(plan, prior)
    requires Admissible(plan, prior, last)
    ensures last.body.DispatchStarted? ==> (Dispatched(f.starts + [last.body.start], d)
                                       <==> Dispatched(f.starts, d) || d == last.body.start.dispatchId)
    ensures last.body.DispatchStarted? && d == last.body.start.dispatchId
        ==> !HasRejection(prior, d) && !HasReceipt(prior, d)
  {
    if last.body.DispatchStarted? {
      DispatchedSnoc(f.starts, last.body.start, d);
      if d == last.body.start.dispatchId && (HasRejection(prior, d) || HasReceipt(prior, d)) {
        EvidenceFollowsStart(plan, prior, d);
      }
    }
  }

  // ---- The replay bound ----

  /** Unresolved starts that no compare-and-swap protects: each may have committed. */
  function Exposed(starts: seq<Started>, rejected: set<Text>): seq<Started> {
    if starts == [] then []
    else
      var prior := Exposed(starts[..|starts| - 1], rejected);
      var last := starts[|starts| - 1];
      if last.dispatchId in rejected || CoreCas(last.request) then prior else prior + [last]
  }

  function RiskStarts(starts: seq<Started>): seq<Started> {
    if starts == [] then []
    else
      var prior := RiskStarts(starts[..|starts| - 1]);
      var last := starts[|starts| - 1];
      if last.basis.AcceptedRisk? then prior + [last] else prior
  }

  ghost function Requests(starts: seq<Started>): set<RequestFacts> {
    set s | s in starts :: s.request
  }

  lemma {:induction false} ExposedAreUnresolved(starts: seq<Started>, rejected: set<Text>)
    ensures forall s :: s in Exposed(starts, rejected) ==> s in Unresolved(starts, rejected) && !CoreCas(s.request)
  {
    if starts != [] {
      ExposedAreUnresolved(starts[..|starts| - 1], rejected);
    }
  }

  lemma {:induction false} ExposedShrinks(starts: seq<Started>, rejected: set<Text>, d: Text)
    ensures |Exposed(starts, rejected + {d})| <= |Exposed(starts, rejected)|
    ensures Requests(Unresolved(starts, rejected + {d})) <= Requests(Unresolved(starts, rejected))
  {
    if starts != [] {
      ExposedShrinks(starts[..|starts| - 1], rejected, d);
    }
  }

  ghost predicate Bounded(f: Facts) {
    && |Exposed(f.starts, f.rejected)| <= 1 + |RiskStarts(f.starts)|
    && |Requests(Unresolved(f.starts, f.rejected))| <= 1 + |RiskStarts(f.starts)|
  }

  lemma SubsetSize<T>(a: set<T>, b: set<T>)
    requires a <= b
    ensures |a| <= |b|
  {
    assert b == a + (b - a);
  }

  lemma EmptyWithoutMembers<T>(s: seq<T>)
    ensures s == [] || exists e :: e in s
  {
    if s != [] {
      assert s[0] in s;
    }
  }

  /** What the earlier starts have in common when a start needs no accepted risk. */
  lemma UnresolvedMatchCandidate(f: Facts, s: Started, status: OperationStatus)
    requires DecideCandidate(f, status, Candidate(s.request, s.fingerprint), s.startedAt) == AppendDispatch(s.basis)
    requires !s.basis.AcceptedRisk?
    ensures forall e :: e in Unresolved(f.starts, f.rejected) ==> SameProtectedRequest(e.request, s.request)
    ensures Exposed(f.starts, f.rejected) == []
  {
    var before, exposed := Unresolved(f.starts, f.rejected), Exposed(f.starts, f.rejected);
    forall e | e in before ensures SameProtectedRequest(e.request, s.request) {
      var i :| 0 <= i < |before| && before[i] == e;
    }
    ExposedAreUnresolved(f.starts, f.rejected);
    EmptyWithoutMembers(exposed);
  }

  /** One more lawful start keeps the bound. */
  lemma StartKeepsBound(f: Facts, s: Started, status: OperationStatus)
    requires Bounded(f)
    requires DecideCandidate(f, status, Candidate(s.request, s.fingerprint), s.startedAt) == AppendDispatch(s.basis)
    ensures Bounded(f.(starts := f.starts + [s]))
  {
    var starts := f.starts + [s];
    assert starts[..|f.starts|] == f.starts;
    var before, after := Unresolved(f.starts, f.rejected), Unresolved(starts, f.rejected);
    assert after == before || after == before + [s];
    if s.basis.AcceptedRisk? {
      assert Requests(after) <= Requests(before) + {s.request};
      SubsetSize(Requests(after), Requests(before) + {s.request});
    } else {
      UnresolvedMatchCandidate(f, s, status);
      assert Requests(after) <= {s.request};
      SubsetSize(Requests(after), {s.request});
    }
  }

  /** An admissible start was decided by the facts of its own operation. */
  lemma StartWasDecided(plan: Plan, prior: History, event: Event) returns (status: OperationStatus)
    requires event.body.DispatchStarted?
    requires Admissible(plan, prior, event)
    ensures status !in {Superseded, Satisfied, Conflict, Pending}
    ensures !SupersededIn(prior) && !HasStart(prior, event.body.start.dispatchId)
    ensures event.planId == plan.planId && !HasEventId(prior, event.eventId)
    ensures var s := event.body.start;
      DecideCandidate(FactsOf(prior, s.operationId), status, Candidate(s.request, s.fingerprint), s.startedAt)
      == AppendDispatch(s.basis)
  {
    var s := event.body.start;
    var kind := if AssertJournalAppend(plan, prior, event, PublicationScope).Ok? then PublicationScope else PreparationScope;
    assert AssertStart(plan, prior, s, kind).Ok?;
    status := OperationStatusIn(prior, s.operationId, kind);
  }

  /** In every lawful history the starts of an operation that may have committed unprotected
      number at most one more than its accepted-risk starts; so do the distinct requests
      that are still unresolved. */
  lemma {:induction false} ReplayBound(plan: Plan, events: History, operationId: Text)
    requires Lawful(plan, events)
    ensures Bounded(FactsOf(events, operationId))
  {
    if events == [] {
      assert Requests([]) == {};
    } else {
      var prior, last := events[..|events| - 1], events[|events| - 1];
      var f := FactsOf(prior, operationId);
      ReplayBound(plan, prior, operationId);
      match last.body {
        case DispatchStarted(s) =>
          if s.operationId == operationId {
            var status := StartWasDecided(plan, prior, last);
            StartKeepsBound(f, s, status);
          }
        case DispatchRejectedBeforeCommit(r) =>
          ExposedShrinks(f.starts, f.rejected, r.dispatchId);
          SubsetSize(Requests(Unresolved(f.starts, f.rejected + {r.dispatchId})), Requests(Unresolved(f.starts, f.rejected)));
        case _ =>
      }
    }
  }
}
