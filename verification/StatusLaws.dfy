/** What statuses, dispatch decisions and admitted appends mean, in terms of the recorded events alone. */
module StatusLaws {
  import opened Texts
  import opened ReleaseModel
  import opened Decision
  import opened HistoryLaws
  import opened RiskLaws

  // ---- What is recorded of an operation ----

  /** The i-th event starts an attempt of the operation. */
  ghost predicate IsAttempt(events: History, i: int, id: Text) {
    0 <= i < |events| && events[i].body.DispatchStarted? && events[i].body.start.operationId == id
  }

  ghost predicate Attempted(events: History, id: Text, d: Text) {
    exists i :: IsAttempt(events, i, id) && events[i].body.start.dispatchId == d
  }

  ghost predicate AnyAttempt(events: History, id: Text) {
    exists i :: IsAttempt(events, i, id)
  }

  /** The i-th event is a receipt for an attempt of the operation. */
  ghost predicate IsReceipt(events: History, i: int, id: Text) {
    0 <= i < |events| && events[i].body.ReceiptAccepted? && Attempted(events, id, events[i].body.receipt.dispatchId)
  }

  ghost predicate AnyReceipt(events: History, id: Text) {
    exists i :: IsReceipt(events, i, id)
  }

  ghost predicate AnySatisfiedReceiptOf(events: History, id: Text) {
    exists i :: IsReceipt(events, i, id) && events[i].body.receipt.completion == Satisfied
  }

  /** An attempt that no recorded rejection closes: it may have committed. */
  ghost predicate IsOpen(events: History, i: int, id: Text) {
    IsAttempt(events, i, id) && !HasRejection(events, events[i].body.start.dispatchId)
  }

  ghost predicate MayHaveCommitted(events: History, id: Text) {
    exists i :: IsOpen(events, i, id)
  }

  ghost predicate IsLook(events: History, i: int, id: Text) {
    0 <= i < |events| && events[i].body.ObservationRecorded? && events[i].body.observation.operationId == id
  }

  ghost predicate IsLatestLook(events: History, i: int, id: Text) {
    IsLook(events, i, id) && forall j :: i < j < |events| ==> !IsLook(events, j, id)
  }

  ghost predicate Definite(status: Status) {
    status != Inconclusive && status != Absent
  }

  /** No last look settles the status. */
  ghost predicate Unsettled(events: History, id: Text) {
    forall i :: IsLatestLook(events, i, id) ==> !Definite(events[i].body.observation.status)
  }

  ghost predicate AnySatisfiedLook(events: History, id: Text) {
    exists i :: IsLook(events, i, id) && events[i].body.observation.status == Satisfied
  }

  // ---- The gathered facts are these events ----

  lemma AttemptedIsDispatched(events: History, id: Text, d: Text)
    ensures Attempted(events, id, d) <==> Dispatched(FactsOf(events, id).starts, d)
  {
    StartsRecorded(events, id);
    var starts := FactsOf(events, id).starts;
    if Attempted(events, id, d) {
      var i :| IsAttempt(events, i, id) && events[i].body.start.dispatchId == d;
      assert events[i].body == DispatchStarted(events[i].body.start);
      assert events[i].body.start in starts;
    }
    if Dispatched(starts, d) {
      var k :| 0 <= k < |starts| && starts[k].dispatchId == d;
      assert starts[k] in starts;
      var i :| 0 <= i < |events| && events[i].body == DispatchStarted(starts[k]);
      assert IsAttempt(events, i, id);
    }
  }

  lemma AnyAttemptIsStart(events: History, id: Text)
    ensures AnyAttempt(events, id) <==> FactsOf(events, id).starts != []
  {
    StartsRecorded(events, id);
    var starts := FactsOf(events, id).starts;
    if i :| IsAttempt(events, i, id) {
      assert events[i].body == DispatchStarted(events[i].body.start);
      assert events[i].body.start in starts;
    }
    if starts != [] {
      assert starts[0] in starts;
      var i :| 0 <= i < |events| && events[i].body == DispatchStarted(starts[0]);
      assert IsAttempt(events, i, id);
    }
  }

  /** Exactly the attempts without a rejection are the unresolved starts. */
  lemma OpenIsUnresolved(plan: Plan, events: History, id: Text, s: Started)
    requires Lawful(plan, events)
    ensures var f := FactsOf(events, id);
      s in Unresolved(f.starts, f.rejected) <==> exists i :: IsOpen(events, i, id) && events[i].body.start == s
  {
    hide Lawful, FactsOf;
    StartsRecorded(events, id);
    LawfulFactsAgree(plan, events, id);
    var f := FactsOf(events, id);
    if s in Unresolved(f.starts, f.rejected) {
      var i :| 0 <= i < |events| && events[i].body == DispatchStarted(s);
      StartIsDispatched(f.starts, s);
      assert IsOpen(events, i, id);
    }
    if i :| IsOpen(events, i, id) && events[i].body.start == s {
      assert events[i].body == DispatchStarted(s);
      StartIsDispatched(f.starts, s);
    }
  }

  lemma StartIsDispatched(starts: seq<Started>, s: Started)
    ensures s in starts ==> Dispatched(starts, s.dispatchId)
  {
  }

  lemma {:induction false} ReceiptsRecorded(plan: Plan, events: History, id: Text, r: Receipt)
    requires Lawful(plan, events)
    ensures r in FactsOf(events, id).receipts <==> exists i :: IsReceipt(events, i, id) && events[i].body.receipt == r
  {
    if events != [] {
      var prior, last := events[..|events| - 1], events[|events| - 1];
      assert events == prior + [last];
      ReceiptsRecorded(plan, prior, id, r);
      ReceiptSnoc(plan, prior, last, id, r);
    }
  }

  lemma AttemptedSnoc(events: History, e: Event, id: Text, d: Text)
    ensures Attempted(events + [e], id, d)
       <==> Attempted(events, id, d)
            || (e.body.DispatchStarted? && e.body.start.operationId == id && e.body.start.dispatchId == d)
  {
    if Attempted(events, id, d) {
      var i :| IsAttempt(events, i, id) && events[i].body.start.dispatchId == d;
      assert IsAttempt(events + [e], i, id);
    }
    if i :| IsAttempt(events + [e], i, id) && (events + [e])[i].body.start.dispatchId == d {
      assert i < |events| ==> IsAttempt(events, i, id);
    }
    if e.body.DispatchStarted? && e.body.start.operationId == id {
      assert IsAttempt(events + [e], |events|, id);
    }
  }

  /** A recorded receipt keeps its attempt: a later start has an identity of its own. */
  lemma AttemptFixed(plan: Plan, events: History, e: Event, id: Text, d: Text)
    requires Lawful(plan, events) && Admissible(plan, events, e) && HasReceipt(events, d)
    ensures Attempted(events + [e], id, d) <==> Attempted(events, id, d)
  {
    hide Lawful;
    AttemptedSnoc(events, e, id, d);
    EvidenceFollowsStart(plan, events, d);
  }

  lemma ReceiptSnoc(plan: Plan, events: History, e: Event, id: Text, r: Receipt)
    requires Lawful(plan, events) && Admissible(plan, events, e)
    ensures (exists i :: IsReceipt(events + [e], i, id) && (events + [e])[i].body.receipt == r)
       <==> (exists i :: IsReceipt(events, i, id) && events[i].body.receipt == r)
            || (e.body == ReceiptAccepted(r) && Attempted(events, id, r.dispatchId))
    ensures r in FactsOf(events + [e], id).receipts
       <==> r in FactsOf(events, id).receipts || (e.body == ReceiptAccepted(r) && Attempted(events, id, r.dispatchId))
  {
    hide Lawful, Admissible, FactsOf;
    var all, d := events + [e], r.dispatchId;
    FactsSnoc(events, e, id);
    AttemptedSnoc(events, e, id, d);
    AttemptedIsDispatched(events, id, d);
    if HasReceipt(events, d) {
      AttemptFixed(plan, events, e, id, d);
    }
    if i :| IsReceipt(events, i, id) && events[i].body.receipt == r {
      assert HasReceipt(events, d);
      assert IsReceipt(all, i, id);
    }
    if i :| IsReceipt(all, i, id) && all[i].body.receipt == r {
      if i < |events| {
        assert HasReceipt(events, d) by { assert events[i].body.ReceiptAccepted? && events[i].body.receipt.dispatchId == d; }
        assert IsReceipt(events, i, id);
      }
    }
    if e.body == ReceiptAccepted(r) && Attempted(events, id, d) {
      assert IsReceipt(all, |events|, id);
    }
  }

  /** The last gathered observation is the latest look. */
  lemma {:induction false} LatestLookIsLast(events: History, id: Text) returns (i: int)
    ensures FactsOf(events, id).observations == [] ==> forall j :: !IsLook(events, j, id)
    ensures var looks := FactsOf(events, id).observations;
      looks != [] ==> IsLatestLook(events, i, id) && events[i].body.observation == looks[|looks| - 1]
  {
    i := 0;
    if events != [] {
      var prior, last := events[..|events| - 1], events[|events| - 1];
      i := LatestLookIsLast(prior, id);
      assert forall j :: 0 <= j < |prior| ==> prior[j] == events[j];
      assert forall j :: IsLook(events, j, id) <==> IsLook(prior, j, id) || (j == |prior| && IsLook(events, j, id));
      if last.body.ObservationRecorded? && last.body.observation.operationId == id {
        i := |prior|;
      }
    }
  }

  lemma LatestLookUnique(events: History, id: Text, i: int, j: int)
    requires IsLatestLook(events, i, id) && IsLatestLook(events, j, id)
    ensures i == j
  {
  }

  lemma {:induction false} LooksRecorded(events: History, id: Text, o: Observed)
    ensures o in FactsOf(events, id).observations
       <==> exists i :: IsLook(events, i, id) && events[i].body.observation == o
  {
    if events != [] {
      var prior, last := events[..|events| - 1], events[|events| - 1];
      LooksRecorded(prior, id, o);
      assert forall j :: 0 <= j < |prior| ==> prior[j] == events[j];
      assert forall j :: IsLook(events, j, id) <==> IsLook(prior, j, id) || (j == |prior| && IsLook(events, j, id));
      if last.body == ObservationRecorded(o) && o.operationId == id {
        assert IsLook(events, |prior|, id);
      }
    }
  }

  // ---- What a status means ----

  lemma SatisfiedReceiptMeans(plan: Plan, events: History, id: Text)
    requires Lawful(plan, events)
    ensures AnySatisfiedReceipt(FactsOf(events, id).receipts) <==> AnySatisfiedReceiptOf(events, id)
    ensures FactsOf(events, id).receipts != [] <==> AnyReceipt(events, id)
  {
    hide Lawful, FactsOf, Attempted;
    var receipts := FactsOf(events, id).receipts;
    if AnySatisfiedReceipt(receipts) {
      var k :| 0 <= k < |receipts| && receipts[k].completion == Satisfied;
      ReceiptsRecorded(plan, events, id, receipts[k]);
    }
    if i :| IsReceipt(events, i, id) && events[i].body.receipt.completion == Satisfied {
      ReceiptsRecorded(plan, events, id, events[i].body.receipt);
      var k :| 0 <= k < |receipts| && receipts[k] == events[i].body.receipt;
    }
    if receipts != [] {
      ReceiptsRecorded(plan, events, id, receipts[0]);
    }
    if i :| IsReceipt(events, i, id) {
      ReceiptsRecorded(plan, events, id, events[i].body.receipt);
    }
  }

  lemma SatisfiedLookMeans(events: History, id: Text)
    ensures AnySatisfiedObservation(FactsOf(events, id).observations) <==> AnySatisfiedLook(events, id)
  {
    hide FactsOf;
    var looks := FactsOf(events, id).observations;
    if AnySatisfiedObservation(looks) {
      var k :| 0 <= k < |looks| && looks[k].status == Satisfied;
      LooksRecorded(events, id, looks[k]);
    }
    if i :| IsLook(events, i, id) && events[i].body.observation.status == Satisfied {
      LooksRecorded(events, id, events[i].body.observation);
      var k :| 0 <= k < |looks| && looks[k] == events[i].body.observation;
    }
  }

  /** Every start is rejected, as the two sizes say, exactly when none may have committed. */
  lemma AllRejectedMeans(plan: Plan, events: History, id: Text)
    requires Lawful(plan, events)
    ensures var f := FactsOf(events, id);
      |f.rejected| == |f.starts| <==> !MayHaveCommitted(events, id)
    ensures var f := FactsOf(events, id);
      Unresolved(f.starts, f.rejected) == [] <==> !MayHaveCommitted(events, id)
  {
    hide Lawful, FactsOf, HasRejection, Unresolved;
    var f := FactsOf(events, id);
    RejectedMeansEveryStartRejected(plan, events, id);
    var unresolved := Unresolved(f.starts, f.rejected);
    if unresolved != [] {
      OpenIsUnresolved(plan, events, id, unresolved[0]);
    }
    if i :| IsOpen(events, i, id) {
      OpenIsUnresolved(plan, events, id, events[i].body.start);
      assert unresolved != [];
    }
  }

  /** Without a look that settles it, the recorded attempts decide the status. */
  ghost predicate AttemptsSay(events: History, id: Text, status: OperationStatus) {
    match status
    case Satisfied => AnySatisfiedReceiptOf(events, id)
    case Pending => AnyReceipt(events, id) && !AnySatisfiedReceiptOf(events, id)
    case Unattempted => !AnyReceipt(events, id) && !AnyAttempt(events, id)
    case Rejected => !AnyReceipt(events, id) && AnyAttempt(events, id) && !MayHaveCommitted(events, id)
    case Inconclusive => !AnyReceipt(events, id) && MayHaveCommitted(events, id)
    case _ => false
  }

  /** The publication status of a lawful history that is not superseded, for every status: a last look that is
      definite is the status; otherwise receipts, attempts and rejections decide. */
  ghost predicate PublicationSays(events: History, id: Text, status: OperationStatus) {
    if Unsettled(events, id) then AttemptsSay(events, id, status)
    else exists i :: IsLatestLook(events, i, id) && events[i].body.observation.status == status
  }

  ghost predicate Says(events: History, id: Text, kind: ScopeKind, status: OperationStatus) {
    if SupersededIn(events) then status == Superseded
    else if kind == PreparationScope && (AnySatisfiedLook(events, id) || AnySatisfiedReceiptOf(events, id))
      then status == Satisfied
    else PublicationSays(events, id, status)
  }

  /** A status is what the recorded events say, and they say only one. */
  lemma StatusMeans(plan: Plan, events: History, id: Text, kind: ScopeKind, status: OperationStatus)
    requires Lawful(plan, events)
    ensures OperationStatusIn(events, id, kind) == status <==> Says(events, id, kind, status)
  {
    hide Lawful, FactsOf, IsReceipt, IsOpen, IsAttempt, IsLook, IsLatestLook, AttemptsSay, AnySatisfiedReceipt,
         AnySatisfiedObservation;
    SatisfiedReceiptMeans(plan, events, id);
    SatisfiedLookMeans(events, id);
    var f := FactsOf(events, id);
    var i := LatestLookIsLast(events, id);
    forall j | IsLatestLook(events, j, id) ensures f.observations != [] && j == i {
      LatestIsLook(events, j, id);
      LatestLookUnique(events, id, i, j);
    }
    AttemptsDecide(plan, events, id, status);
  }

  lemma LatestIsLook(events: History, j: int, id: Text)
    requires IsLatestLook(events, j, id)
    ensures IsLook(events, j, id)
  {
  }

  lemma AttemptsDecide(plan: Plan, events: History, id: Text, status: OperationStatus)
    requires Lawful(plan, events)
    ensures var f := FactsOf(events, id);
      StatusOfFacts(f.(observations := []), PublicationScope) == status <==> AttemptsSay(events, id, status)
  {
    hide Lawful, FactsOf, IsReceipt, IsOpen, IsAttempt, AnySatisfiedReceipt;
    SatisfiedReceiptMeans(plan, events, id);
    AnyAttemptIsStart(events, id);
    AllRejectedMeans(plan, events, id);
    OpenIsAttempt(events, id);
    SatisfiedIsReceipt(events, id);
  }

  lemma OpenIsAttempt(events: History, id: Text)
    ensures MayHaveCommitted(events, id) ==> AnyAttempt(events, id)
  {
  }

  lemma SatisfiedIsReceipt(events: History, id: Text)
    ensures AnySatisfiedReceiptOf(events, id) ==> AnyReceipt(events, id)
  {
  }

  // ---- What the counts of a report mean ----

  ghost function AttemptsIn(events: History, id: Text): set<int> {
    set i | 0 <= i < |events| && IsAttempt(events, i, id)
  }

  ghost function ReceiptsIn(events: History, id: Text): set<int> {
    set i | 0 <= i < |events| && IsReceipt(events, i, id)
  }

  ghost function LooksIn(events: History, id: Text): set<int> {
    set i | 0 <= i < |events| && IsLook(events, i, id)
  }

  lemma OneMore(a: set<int>, b: set<int>, n: int, more: bool)
    requires n !in a && forall i: int :: i in b <==> (i in a || (more && i == n))
    ensures |b| == |a| + (if more then 1 else 0)
  {
    if more {
      assert forall i: int :: i in b <==> i in a + {n};
      assert b == a + {n};
    } else {
      assert forall i: int :: i in b <==> i in a;
      assert b == a;
    }
  }

  lemma {:induction false} AttemptsCounted(events: History, id: Text)
    ensures |FactsOf(events, id).starts| == |AttemptsIn(events, id)|
  {
    if events != [] {
      var n := |events| - 1;
      var prior := events[..n];
      AttemptsCounted(prior, id);
      assert events == prior + [events[n]];
      FactsSnoc(prior, events[n], id);
      hide FactsOf;
      OneMore(AttemptsIn(prior, id), AttemptsIn(events, id), n, IsAttempt(events, n, id));
    }
  }

  lemma {:induction false} LooksCounted(events: History, id: Text)
    ensures |FactsOf(events, id).observations| == |LooksIn(events, id)|
  {
    if events != [] {
      var n := |events| - 1;
      var prior := events[..n];
      LooksCounted(prior, id);
      assert events == prior + [events[n]];
      FactsSnoc(prior, events[n], id);
      hide FactsOf;
      OneMore(LooksIn(prior, id), LooksIn(events, id), n, IsLook(events, n, id));
    }
  }

  lemma {:induction false} ReceiptsCounted(plan: Plan, events: History, id: Text)
    requires Lawful(plan, events)
    ensures |FactsOf(events, id).receipts| == |ReceiptsIn(events, id)|
  {
    if events != [] {
      var n := |events| - 1;
      var prior, last := events[..n], events[n];
      assert events == prior + [last];
      ReceiptsCounted(plan, prior, id);
      hide FactsOf, Lawful, Admissible, IsReceipt, ReceiptsIn;
      ReceiptsKept(plan, prior, last, id);
      ReceiptGathered(plan, prior, last, id);
      ReceiptCounted(prior, last, id);
    }
  }

  lemma ReceiptGathered(plan: Plan, prior: History, last: Event, id: Text)
    requires Lawful(plan, prior) && Admissible(plan, prior, last)
    ensures |FactsOf(prior + [last], id).receipts|
         == |FactsOf(prior, id).receipts| + (if IsReceipt(prior + [last], |prior|, id) then 1 else 0)
  {
    hide FactsOf, Lawful, Admissible, IsReceipt, Dispatched, Attempted;
    FactsSnoc(prior, last, id);
    ReceiptsKept(plan, prior, last, id);
    if last.body.ReceiptAccepted? {
      AttemptedIsDispatched(prior, id, last.body.receipt.dispatchId);
    }
  }

  lemma ReceiptCounted(prior: History, last: Event, id: Text)
    requires forall i :: 0 <= i < |prior| ==> (IsReceipt(prior + [last], i, id) <==> IsReceipt(prior, i, id))
    ensures |ReceiptsIn(prior + [last], id)|
         == |ReceiptsIn(prior, id)| + (if IsReceipt(prior + [last], |prior|, id) then 1 else 0)
  {
    hide IsReceipt;
    OneMore(ReceiptsIn(prior, id), ReceiptsIn(prior + [last], id), |prior|, IsReceipt(prior + [last], |prior|, id));
  }

  /** A report counts, for each operation, its recorded attempts, their receipts, and the looks at it. */
  lemma CountsMean(plan: Plan, events: History, o: Operation, kind: ScopeKind)
    requires Lawful(plan, events)
    ensures var report := ReportOf(o, events, kind);
      && report.operationId == o.operationId && Says(events, o.operationId, kind, report.status)
      && report.dispatches == |AttemptsIn(events, o.operationId)|
      && report.receipts == |ReceiptsIn(events, o.operationId)|
      && report.observations == |LooksIn(events, o.operationId)|
  {
    hide FactsOf, Lawful, Says, AttemptsIn, ReceiptsIn, LooksIn, OperationStatusIn;
    AttemptsCounted(events, o.operationId);
    ReceiptsCounted(plan, events, o.operationId);
    LooksCounted(events, o.operationId);
    StatusMeans(plan, events, o.operationId, kind, OperationStatusIn(events, o.operationId, kind));
  }

  lemma ReceiptsKept(plan: Plan, events: History, e: Event, id: Text)
    requires Lawful(plan, events) && Admissible(plan, events, e)
    ensures forall i :: 0 <= i < |events| ==> (IsReceipt(events + [e], i, id) <==> IsReceipt(events, i, id))
    ensures IsReceipt(events + [e], |events|, id)
       <==> e.body.ReceiptAccepted? && Attempted(events, id, e.body.receipt.dispatchId)
  {
    hide Lawful, Admissible, Attempted;
    forall i | 0 <= i < |events| ensures IsReceipt(events + [e], i, id) <==> IsReceipt(events, i, id) {
      if events[i].body.ReceiptAccepted? {
        assert HasReceipt(events, events[i].body.receipt.dispatchId);
        AttemptFixed(plan, events, e, id, events[i].body.receipt.dispatchId);
      }
    }
    if e.body.ReceiptAccepted? {
      AttemptedSnoc(events, e, id, e.body.receipt.dispatchId);
    }
  }
}
