/** What a lone run that meets no refusal leaves behind: each visited operation dispatched once and
    Satisfied, every other untouched. */
module Progress {
  import opened Texts
  import opened ReleaseModel
  import opened Decision
  import opened HistoryLaws
  import opened Provider
  import opened Journal
  import opened Dag
  import opened PlanIdentity
  import opened Host
  import opened Admission

  predicate Done(f: Facts) {
    && |f.starts| == 1 && f.rejected == {} && f.observations == []
    && |f.receipts| == 1 && f.receipts[0].completion == Satisfied
  }

  predicate PlainEvent(plan: Plan, e: Event) {
    e.planId == plan.planId && (e.body.DispatchStarted? || e.body.ReceiptAccepted?)
  }

  ghost predicate FactsInOrder(plan: Plan, events: History, visited: set<Text>) {
    forall o :: o in plan.operations ==>
      if o.operationId in visited then Done(FactsOf(events, o.operationId))
      else FactsOf(events, o.operationId) == NoFacts
  }

  /** An admitted journal in which exactly the visited operations have run, each to its end. */
  ghost predicate Orderly(host: HostShape, plan: Plan, events: History, visited: set<Text>) {
    && ReadAdmits(host, plan, events) && OwnScope(host, plan)
    && (forall i :: 0 <= i < |events| ==> PlainEvent(plan, events[i]))
    && |events| == 2 * |visited|
    && FactsInOrder(plan, events, visited)
  }

  lemma {:induction false} ScopedAll(plan: Plan, events: History)
    requires forall i :: 0 <= i < |events| ==> PlainEvent(plan, events[i])
    ensures Scoped(events, plan.planId) == events
  {
    if events != [] {
      var prior, last := events[..|events| - 1], events[|events| - 1];
      ScopedAll(plan, prior);
      assert events == prior + [last];
    }
  }

  /** With no historical plan to account for, the empty journal is admitted. */
  lemma EmptyIsOrderly(host: HostShape, plan: Plan)
    requires Configured(host, plan) && OwnScope(host, plan) && PriorsOf(host) == []
    ensures Orderly(host, plan, [], {})
  {
    hide Loads;
    forall i | 0 <= i < |Registrations(host, plan)|
      ensures ScopeAdmits(host, Registrations(host, plan)[i], [])
    {
    }
  }

  lemma LoadedPlan(host: HostShape, plan: Plan)
    requires Configured(host, plan) && OwnScope(host, plan)
    ensures Loads(host.kernel, plan, host.providers)
    ensures ValidDag(plan.operations) && JournalIdFor(host, plan) == plan.journalId
    ensures forall o :: o in plan.operations ==> FindProvider(host.providers, o.definitionId).Some?
  {
    var k :| 0 <= k < |ScopesOf(host, plan)| && ScopesOf(host, plan)[k].plan == plan;
    assert Registrations(host, plan)[k] == Registration(plan, host.providers, false);
    assert AdmitsPlan(host, Registrations(host, plan)[k], plan.journalId);
    forall o | o in plan.operations ensures FindProvider(host.providers, o.definitionId).Some? {
      var i :| 0 <= i < |plan.operations| && plan.operations[i] == o;
      assert Rebuilds(host.kernel, host.providers, plan.operations[i]);
    }
  }

  lemma FindInUnique(operations: seq<Operation>, o: Operation)
    requires UniqueIds(operations) && o in operations
    ensures FindOperation(operations, o.operationId) == Some(o)
  {
    var found := FindOperation(operations, o.operationId);
    var i :| 0 <= i < |operations| && operations[i] == o;
    var j :| 0 <= j < |operations| && operations[j] == found.value;
  }

  lemma PresentIsFound(operations: seq<Operation>, id: Text)
    requires Present(operations, id)
    ensures FindOperation(operations, id).Some?
  {
  }

  /** The default machine answers for the plan's own history. */
  lemma DefaultMachineReads(
      host: HostShape, plan: Plan, events: History, id: Text, candidate: Option<Candidate>, now: int, event: Event)
    requires ReadAdmits(host, plan, events) && OwnScope(host, plan) && host.machine.None?
    ensures var scoped, kind := Scoped(events, plan.planId), ScopeKindFor(host, plan.planId);
      && SelectedMachine(host, plan, events).Ok?
      && SelectedMachine(host, plan, events).value.statusOf(id) == OperationStatusIn(scoped, id, kind)
      && SelectedMachine(host, plan, events).value.next(id, candidate, now)
         == DispatchDecision(plan, scoped, id, candidate, now, kind)
      && (SelectedMachine(host, plan, events).value.append(event).Ok?
          <==> AssertJournalAppend(plan, scoped, event, kind).Ok?)
  {
    hide Loads, NativeVerdict, OneSelection, AssertJournalAppend, DispatchDecision;
    var scoped, kind := Scoped(events, plan.planId), ScopeKindFor(host, plan.planId);
    var scope := OwnScopeFound(host, plan);
    var k :| 0 <= k < |ScopesOf(host, plan)| && ScopesOf(host, plan)[k].plan == plan;
    assert Registrations(host, plan)[k] == Registration(plan, host.providers, false);
    assert ScopeAdmits(host, Registrations(host, plan)[k], scoped);
    MachineExists(plan, scoped, kind);
  }

  lemma OwnScopeFound(host: HostShape, plan: Plan) returns (scope: Scope)
    requires Configured(host, plan) && OwnScope(host, plan)
    ensures FindScope(ScopesOf(host, plan), plan.planId) == Some(scope) && scope.plan == plan
  {
    hide Loads;
    var k :| 0 <= k < |ScopesOf(host, plan)| && ScopesOf(host, plan)[k].plan == plan;
    scope := FindScope(ScopesOf(host, plan), plan.planId).value;
    var i :| 0 <= i < |ScopesOf(host, plan)| && ScopesOf(host, plan)[i] == scope;
    assert Registrations(host, plan)[i].plan == scope.plan;
    OwnRegistration(host, plan, i);
  }

  // ---- Statuses ----

  lemma PlainNeverSuperseded(plan: Plan, events: History)
    requires forall i :: 0 <= i < |events| ==> PlainEvent(plan, events[i])
    ensures !SupersededIn(events)
  {
  }

  lemma DoneIsSatisfied(plan: Plan, events: History, id: Text, kind: ScopeKind)
    requires forall i :: 0 <= i < |events| ==> PlainEvent(plan, events[i])
    requires Done(FactsOf(events, id))
    ensures OperationStatusIn(events, id, kind) == Satisfied
  {
    hide FactsOf;
    assert FactsOf(events, id).receipts[0].completion == Satisfied;
  }

  /** Exactly the visited operations are Satisfied. */
  lemma SatisfiedIffVisited(host: HostShape, plan: Plan, events: History, visited: set<Text>, id: Text)
    requires Orderly(host, plan, events, visited) && Present(plan.operations, id)
    ensures OperationStatusIn(events, id, ScopeKindFor(host, plan.planId)) == if id in visited then Satisfied else Unattempted
  {
    hide ReadAdmits, OwnScope, FactsOf;
    var i :| 0 <= i < |plan.operations| && plan.operations[i].operationId == id;
    PlainNeverSuperseded(plan, events);
    if id in visited {
      DoneIsSatisfied(plan, events, id, ScopeKindFor(host, plan.planId));
    }
  }

  /** The machine sends an unvisited operation whose dependencies ran, under an Initial basis. */
  lemma UnvisitedIsDecided(
      host: HostShape, plan: Plan, events: History, visited: set<Text>, o: Operation, candidate: Option<Candidate>, now: int)
    requires Orderly(host, plan, events, visited) && ValidDag(plan.operations)
    requires o in plan.operations && o.operationId !in visited
    requires forall d :: d in o.dependsOn ==> d in visited
    ensures DispatchDecision(plan, events, o.operationId, candidate, now, ScopeKindFor(host, plan.planId))
         == Ok(if candidate.None? then PrepareDispatch else AppendDispatch(Initial))
  {
    hide ReadAdmits, OwnScope, FactsOf, Orderly;
    var kind := ScopeKindFor(host, plan.planId);
    FindInUnique(plan.operations, o);
    var i :| 0 <= i < |plan.operations| && plan.operations[i] == o;
    SatisfiedIffVisited(host, plan, events, visited, o.operationId);
    forall k | 0 <= k < |o.dependsOn| ensures OperationStatusIn(events, o.dependsOn[k], kind) == Satisfied {
      assert o.dependsOn[k] in plan.operations[i].dependsOn;
      SatisfiedIffVisited(host, plan, events, visited, o.dependsOn[k]);
    }
    NothingRecorded(host, plan, events, visited, o);
  }

  lemma NothingRecorded(host: HostShape, plan: Plan, events: History, visited: set<Text>, o: Operation)
    requires Orderly(host, plan, events, visited) && o in plan.operations && o.operationId !in visited
    ensures FactsOf(events, o.operationId) == NoFacts
  {
  }

  // ---- The two events of a visit ----

  lemma {:induction false} DependenciesHaveEvidence(plan: Plan, events: History, dependsOn: seq<Text>)
    requires forall d :: d in dependsOn ==> FindOperation(plan.operations, d).Some?
    ensures DependencyEvidence(plan, events, dependsOn).Ok?
  {
    if dependsOn != [] {
      assert dependsOn[0] in dependsOn;
      DependenciesHaveEvidence(plan, events, dependsOn[1..]);
    }
  }

  lemma ContextExists(plan: Plan, o: Operation, events: History)
    requires ValidDag(plan.operations) && o in plan.operations
    ensures EvidenceContext(plan, o, events).Ok?
  {
    var i :| 0 <= i < |plan.operations| && plan.operations[i] == o;
    forall d | d in o.dependsOn ensures FindOperation(plan.operations, d).Some? {
      assert d in plan.operations[i].dependsOn;
      PresentIsFound(plan.operations, d);
    }
    DependenciesHaveEvidence(plan, Scoped(events, plan.planId), o.dependsOn);
  }

  predicate StartOf(host: HostShape, plan: Plan, e: Event, o: Operation) {
    && PlainEvent(plan, e) && e.body.DispatchStarted? && e.journalId == plan.journalId
    && e.body.start.operationId == o.operationId && e.body.start.basis == Initial && IsTime(e.body.start.startedAt)
    && e.body.start.fingerprint == host.fingerprint(e.body.start.request)
  }

  /** The dispatch a lone run decides on passes every write-side check. */
  lemma StartIsAdmitted(host: HostShape, plan: Plan, events: History, visited: set<Text>, o: Operation, e: Event)
    requires Orderly(host, plan, events, visited)
    requires o in plan.operations && o.operationId !in visited && forall d :: d in o.dependsOn ==> d in visited
    requires StartOf(host, plan, e, o)
    requires !HasEventId(events, e.eventId) && !HasStart(events, e.body.start.dispatchId)
    requires EvidenceContext(plan, o, events).Ok?
    requires FindProvider(host.providers, o.definitionId).Some?
    requires FindProvider(host.providers, o.definitionId).value.requestCorresponds(
               o, e.body.start.request, EvidenceContext(plan, o, events).value)
    ensures WriteAdmits(host, plan, events, e)
  {
    hide ReadAdmits, OwnScope, FactsOf, DispatchDecision, EvidenceContext;
    var kind, s := ScopeKindFor(host, plan.planId), e.body.start;
    LoadedPlan(host, plan) by { assert ReadAdmits(host, plan, events); ReadIsConfigured(host, plan, events); }
    ScopedAll(plan, events);
    FindInUnique(plan.operations, o);
    UnvisitedIsDecided(host, plan, events, visited, o, Some(Candidate(s.request, s.fingerprint)), s.startedAt);
    OwnHistoryVerified(host, plan, events);
    NativeSnoc(DefinitionsFor(host, plan), events, e);
  }

  lemma ReadIsConfigured(host: HostShape, plan: Plan, events: History)
    requires ReadAdmits(host, plan, events)
    ensures Configured(host, plan)
  {
  }

  /** An admitted journal's own scope passed the native and admission laws. */
  lemma OwnHistoryVerified(host: HostShape, plan: Plan, events: History)
    requires ReadAdmits(host, plan, events) && OwnScope(host, plan)
    ensures NativeVerdict(DefinitionsFor(host, plan), Scoped(events, plan.planId)).Ok?
    ensures Admitted(plan, Scoped(events, plan.planId), ScopeKindFor(host, plan.planId))
  {
    hide Loads, NativeVerdict, Admitted, OneSelection;
    var k :| 0 <= k < |ScopesOf(host, plan)| && ScopesOf(host, plan)[k].plan == plan;
    assert Registrations(host, plan)[k] == Registration(plan, host.providers, false);
    assert ScopeAdmits(host, Registrations(host, plan)[k], Scoped(events, plan.planId));
  }

  predicate ReceiptFor(host: HostShape, plan: Plan, start: Event, o: Operation, e: Event) {
    var found := FindProvider(host.providers, o.definitionId);
    && PlainEvent(plan, e) && e.body.ReceiptAccepted? && e.journalId == plan.journalId && start.body.DispatchStarted?
    && found.Some?
    && e.body.receipt.dispatchId == start.body.start.dispatchId
    && e.body.receipt.version == found.value.receiptVersion
    && e.body.receipt.completion == Satisfied
    && (var decoded := NativeEvidence(found.value.receiptCodec, e.body.receipt.value);
        && decoded.Ok?
        && found.value.receiptCorresponds(o, start.body.start.request, decoded.value)
        && found.value.classifyReceipt(o, start.body.start.request, decoded.value) == Satisfied)
  }

  /** Its receipt is decoded and corresponds to that start. */
  lemma ReceiptIsNative(host: HostShape, plan: Plan, events: History, o: Operation, start: Event, e: Event)
    requires ValidDag(plan.operations) && o in plan.operations
    requires StartOf(host, plan, start, o) && ReceiptFor(host, plan, start, o, e)
    requires NativeVerdict(DefinitionsFor(host, plan), events + [start]).Ok?
    ensures NativeVerdict(DefinitionsFor(host, plan), events + [start] + [e]).Ok?
  {
    hide NativeVerdict;
    FindInUnique(plan.operations, o);
    LastStartSnoc(events, start, start.body.start.dispatchId);
    NativeSnoc(DefinitionsFor(host, plan), events + [start], e);
  }

  /** Its receipt passes them too. */
  lemma ReceiptIsAdmitted(
      host: HostShape, plan: Plan, events: History, visited: set<Text>, o: Operation, start: Event, e: Event)
    requires Orderly(host, plan, events, visited)
    requires o in plan.operations && o.operationId !in visited
    requires visited <= OperationIds(plan)
    requires StartOf(host, plan, start, o) && ReceiptFor(host, plan, start, o, e)
    requires WriteAdmits(host, plan, events, start)
    requires !HasEventId(events + [start], e.eventId) && !HasStart(events, start.body.start.dispatchId)
    ensures WriteAdmits(host, plan, events + [start], e)
  {
    hide ReadAdmits, OwnScope, FactsOf, AssertJournalAppend, OneSelection, DispatchDecision, NativeVerdict, DefinitionsFor, Configured, Loads, HasEventId, HasStart;
    var more, d := events + [start], start.body.start.dispatchId;
    ReadIsConfigured(host, plan, events);
    LoadedPlan(host, plan);
    ScopedAll(plan, events);
    ScopedAll(plan, more);
    ReceiptIsNative(host, plan, events, o, start, e);
    ReceiptFollowsStart(host, plan, events, start, e);
    if ScopeKindFor(host, plan.planId) == PreparationScope {
      PreparationHasOne(host, plan);
      FirstVisit(plan, visited, o);
      assert events == [];
      OneOutput(start, e);
    }
  }

  function OperationIds(plan: Plan): set<Text> {
    set o | o in plan.operations :: o.operationId
  }

  lemma FirstVisit(plan: Plan, visited: set<Text>, o: Operation)
    requires |plan.operations| == 1 && o in plan.operations && o.operationId !in visited
    requires visited <= OperationIds(plan)
    ensures visited == {}
  {
    assert OperationIds(plan) == {o.operationId};
  }

  lemma OneOutput(start: Event, e: Event)
    requires start.body.DispatchStarted? && e.body.ReceiptAccepted?
    requires e.body.receipt.dispatchId == start.body.start.dispatchId
    ensures OneSelection([start] + [e])
  {
    assert OneSelection([]);
    OneSelectionSnoc([], start);
    assert [] + [start] == [start];
    LastStartSnoc([], start, e.body.receipt.dispatchId);
    OneSelectionSnoc([start], e);
  }

  lemma ReceiptFollowsStart(host: HostShape, plan: Plan, events: History, start: Event, e: Event)
    requires ReadAdmits(host, plan, events) && OwnScope(host, plan)
    requires forall i :: 0 <= i < |events| ==> PlainEvent(plan, events[i])
    requires PlainEvent(plan, start) && start.body.DispatchStarted?
    requires PlainEvent(plan, e) && e.body.ReceiptAccepted?
    requires e.body.receipt.dispatchId == start.body.start.dispatchId
    requires !HasEventId(events + [start], e.eventId) && !HasStart(events, start.body.start.dispatchId)
    ensures AssertJournalAppend(plan, events + [start], e, ScopeKindFor(host, plan.planId)).Ok?
  {
    hide ReadAdmits, OwnScope;
    var d := start.body.start.dispatchId;
    ScopedAll(plan, events);
    OwnHistoryVerified(host, plan, events);
    AdmittedIsLawful(plan, events, ScopeKindFor(host, plan.planId));
    HasStartSnoc(events, start, d);
    HasRejectionSnoc(events, start, d);
    HasReceiptSnoc(events, start, d);
    if HasRejection(events, d) || HasReceipt(events, d) {
      EvidenceFollowsStart(plan, events, d);
    }
  }

  /** After both events the visited set has grown by exactly this operation. */
  lemma VisitIsOrderly(
      host: HostShape, plan: Plan, events: History, visited: set<Text>, o: Operation, start: Event, e: Event)
    requires Orderly(host, plan, events, visited)
    requires o in plan.operations && o.operationId !in visited
    requires StartOf(host, plan, start, o) && ReceiptFor(host, plan, start, o, e)
    requires WriteAdmits(host, plan, events, start) && WriteAdmits(host, plan, events + [start], e)
    requires !HasStart(events, start.body.start.dispatchId)
    ensures Orderly(host, plan, events + [start] + [e], visited + {o.operationId})
  {
    hide ReadAdmits, OwnScope, WriteAdmits;
    var after := events + [start] + [e];
    WriteKeepsJournalAdmitted(host, plan, events, start);
    WriteKeepsJournalAdmitted(host, plan, events + [start], e);
    forall p | p in plan.operations
      ensures if p.operationId in visited + {o.operationId} then Done(FactsOf(after, p.operationId))
              else FactsOf(after, p.operationId) == NoFacts
    {
      FactsSnoc(events, start, p.operationId);
      FactsSnoc(events + [start], e, p.operationId);
      OwnReceiptOnly(events, p.operationId, start.body.start);
    }
  }

  lemma OwnReceiptOnly(events: History, id: Text, s: Started)
    requires !HasStart(events, s.dispatchId)
    ensures !Dispatched(FactsOf(events, id).starts, s.dispatchId)
    ensures Dispatched(FactsOf(events, id).starts + [s], s.dispatchId)
  {
    if Dispatched(FactsOf(events, id).starts, s.dispatchId) {
      DispatchedHasStart(events, id, s.dispatchId);
    }
    assert (FactsOf(events, id).starts + [s])[|FactsOf(events, id).starts|] == s;
  }

  // ---- Some operation is always ready ----

  lemma LeastRank(operations: seq<Operation>, rank: map<Text, nat>, visited: set<Text>, o: Operation) returns (least: Operation)
    requires Ranks(operations, rank) && o in operations && o.operationId !in visited
    requires forall i, d :: 0 <= i < |operations| && d in operations[i].dependsOn ==> Present(operations, d)
    ensures least in operations && least.operationId !in visited
    ensures forall d :: d in least.dependsOn ==> d in visited
    decreases if o.operationId in rank then rank[o.operationId] + 1 else 0
  {
    if d :| d in o.dependsOn && d !in visited {
      var i :| 0 <= i < |operations| && operations[i] == o;
      assert d in operations[i].dependsOn && Present(operations, d);
      var j :| 0 <= j < |operations| && operations[j].operationId == d;
      least := LeastRank(operations, rank, visited, operations[j]);
    } else {
      least := o;
    }
  }

  /** In a validated graph some unvisited operation has only visited dependencies, whatever the id order. */
  lemma SomeOperationReady(plan: Plan, visited: set<Text>, o: Operation) returns (i: nat)
    requires ValidDag(plan.operations) && o in plan.operations && o.operationId !in visited
    ensures i < |plan.operations| && plan.operations[i].operationId !in visited
    ensures forall d :: d in plan.operations[i].dependsOn ==> d in visited
  {
    var rank :| Ranks(plan.operations, rank);
    var least := LeastRank(plan.operations, rank, visited, o);
    i :| 0 <= i < |plan.operations| && plan.operations[i] == least;
  }
}
