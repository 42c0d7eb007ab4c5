/** What a runner checks before it appends, and why no reader can refuse the result. */
module Admission {
  import opened ReleaseModel
  import opened Decision
  import opened Journal
  import opened PlanIdentity
  import opened Host

  function DefinitionsFor(host: HostShape, plan: Plan): Definitions {
    Definitions(plan, host.providers, host.kernel.core)
  }

  /** The checks made on a snapshot before an append is issued. The selection law is checked for
      facts only; a start is fingerprinted from its own request. */
  ghost predicate WriteAdmits(host: HostShape, plan: Plan, events: History, event: Event) {
    var scoped, kind := Scoped(events, plan.planId), ScopeKindFor(host, plan.planId);
    && event.journalId == plan.journalId
    && event.planId == plan.planId
    && !HasEventId(events, event.eventId)
    && (event.body.DispatchStarted? ==> event.body.start.fingerprint == host.fingerprint(event.body.start.request))
    && NativeVerdict(DefinitionsFor(host, plan), scoped + [event]).Ok?
    && (!event.body.DispatchStarted? && kind == PreparationScope ==> OneSelection(scoped + [event]))
    && AssertJournalAppend(plan, scoped, event, kind).Ok?
  }

  /** A start selects no output, so leaving the selection law out of its checks is harmless. */
  lemma StartSelectsNothing(events: History, event: Event)
    requires OneSelection(events) && event.body.DispatchStarted?
    ensures OneSelection(events + [event])
  {
    OneSelectionSnoc(events, event);
  }

  lemma OwnScopeStaysAdmitted(host: HostShape, plan: Plan, events: History, event: Event)
    requires WriteAdmits(host, plan, events, event)
    requires ScopeAdmits(host, Registration(plan, host.providers, false), Scoped(events, plan.planId))
    ensures ScopeAdmits(host, Registration(plan, host.providers, false), Scoped(events + [event], plan.planId))
  {
    hide NativeVerdict, AssertJournalAppend;
    var scoped := Scoped(events, plan.planId);
    ScopedSnoc(events, event, plan.planId);
    assert (scoped + [event])[..|scoped|] == scoped && (scoped + [event])[|scoped|] == event;
    if event.body.DispatchStarted? && ScopeKindFor(host, plan.planId) == PreparationScope {
      StartSelectsNothing(scoped, event);
    }
  }

  /** The plan is registered as an ordinary scope of this host, under the content it names. */
  ghost predicate OwnScope(host: HostShape, plan: Plan) {
    exists i :: 0 <= i < |ScopesOf(host, plan)| && ScopesOf(host, plan)[i].plan == plan
  }

  lemma OwnRegistration(host: HostShape, plan: Plan, i: nat)
    requires Configured(host, plan) && OwnScope(host, plan)
    requires i < |Registrations(host, plan)| && Registrations(host, plan)[i].plan.planId == plan.planId
    ensures Registrations(host, plan)[i] == Registration(plan, host.providers, false)
  {
    hide Loads;
    var k :| 0 <= k < |ScopesOf(host, plan)| && ScopesOf(host, plan)[k].plan == plan;
    assert Registrations(host, plan)[k] == Registration(plan, host.providers, false);
    assert DistinctPlans(Registrations(host, plan));
  }

  /** A preparation plan has one operation. */
  lemma PreparationHasOne(host: HostShape, plan: Plan)
    requires Configured(host, plan) && OwnScope(host, plan)
    requires ScopeKindFor(host, plan.planId) == PreparationScope
    ensures |plan.operations| == 1
  {
    hide Loads;
    var scope := FindScope(host.journal.value.scopes, plan.planId).value;
    var i :| 0 <= i < |host.journal.value.scopes| && host.journal.value.scopes[i] == scope;
    assert PreparationShape(scope.plan);
    assert Registrations(host, plan)[i].plan == scope.plan;
    OwnRegistration(host, plan, i);
  }

  /** Write-side checks imply read-side checks: appending an event that passed them to the
      snapshot they were made on keeps the whole multi-plan journal admitted. */
  lemma WriteKeepsJournalAdmitted(host: HostShape, plan: Plan, events: History, event: Event)
    requires ReadAdmits(host, plan, events) && OwnScope(host, plan)
    requires WriteAdmits(host, plan, events, event)
    ensures ReadAdmits(host, plan, events + [event])
  {
    hide Loads, ScopeAdmits, NativeVerdict, AssertJournalAppend, OneSelection;
    var registrations := Registrations(host, plan);
    var more := events + [event];
    forall i | 0 <= i < |registrations|
      ensures ScopeAdmits(host, registrations[i], Scoped(more, registrations[i].plan.planId))
    {
      assert ScopeAdmits(host, registrations[i], Scoped(events, registrations[i].plan.planId));
      ScopedSnoc(events, event, registrations[i].plan.planId);
      if registrations[i].plan.planId == plan.planId {
        OwnRegistration(host, plan, i);
        OwnScopeStaysAdmitted(host, plan, events, event);
      }
    }
    EnvelopeGrows(host, plan, events, event);
  }

  lemma EnvelopeGrows(host: HostShape, plan: Plan, events: History, event: Event)
    requires Configured(host, plan) && OwnScope(host, plan)
    requires Enveloped(Registrations(host, plan), plan.journalId, events)
    requires event.journalId == plan.journalId && event.planId == plan.planId && !HasEventId(events, event.eventId)
    ensures Enveloped(Registrations(host, plan), plan.journalId, events + [event])
  {
    hide Loads;
    var registrations := Registrations(host, plan);
    var k :| 0 <= k < |ScopesOf(host, plan)| && ScopesOf(host, plan)[k].plan == plan;
    assert registrations[k].plan == plan;
    assert IsRegistered(registrations, event.planId);
    forall i | 0 <= i < |events| ensures events[i].eventId != event.eventId {
    }
  }

  /** The journal a host admits does not depend on which of its plans asks. */
  lemma ReadsAgree(host: HostShape, plan: Plan, other: Plan, events: History)
    requires ReadAdmits(host, plan, events) && host.journal.Some?
    requires OwnScope(host, other)
    ensures ReadAdmits(host, other, events)
  {
    hide Loads, HistoryAdmitted;
    var k :| 0 <= k < |ScopesOf(host, other)| && ScopesOf(host, other)[k].plan == other;
    assert Registrations(host, plan)[k].plan == other;
    assert AdmitsPlan(host, Registrations(host, plan)[k], plan.journalId);
  }
}
