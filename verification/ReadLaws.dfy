/** What an admitted journal guarantees, in terms of the configured plans and the recorded events. */
module ReadLaws {
  import opened Texts
  import opened ReleaseModel
  import opened Decision
  import opened Provider
  import opened Journal
  import opened NativeLaws
  import opened DispatchLaws
  import opened PlanIdentity
  import opened Host

  // ---- The configuration ----

  ghost predicate LoadsInto(host: HostShape, plan: Plan, providers: seq<ProviderDefinition>, journalId: Text) {
    Loads(host.kernel, plan, providers) && plan.journalId == journalId
  }

  /** One operation, bound to its input and to nothing before it. */
  ghost predicate IsPreparation(plan: Plan) {
    exists o :: plan.operations == [o] && o.dependsOn == [] && plan.bundleId == PREPARATION_PREFIX + o.operationId
  }

  /** A journal context is in order for a plan: every plan it names loads into this one journal, no two have one
      identity, at most one publishes, preparations are single operations, and the plan is one of its scopes. */
  ghost predicate InContext(host: HostShape, context: JournalContext, plan: Plan) {
    var scopes, priors := context.scopes, context.supersededPlans;
    && plan.journalId == context.journalId
    && (exists i :: 0 <= i < |scopes| && scopes[i].plan.planId == plan.planId)
    && (forall i :: 0 <= i < |scopes| ==> LoadsInto(host, scopes[i].plan, host.providers, context.journalId))
    && (forall i :: 0 <= i < |priors| ==> LoadsInto(host, priors[i].plan, priors[i].providers, context.journalId))
    && (forall i, j :: 0 <= i < j < |scopes| ==>
          && scopes[i].plan.planId != scopes[j].plan.planId
          && !(scopes[i].kind == PublicationScope && scopes[j].kind == PublicationScope))
    && (forall i, j :: 0 <= i < j < |priors| ==> priors[i].plan.planId != priors[j].plan.planId)
    && (forall i, j :: 0 <= i < |scopes| && 0 <= j < |priors| ==> scopes[i].plan.planId != priors[j].plan.planId)
    && (forall i :: 0 <= i < |scopes| && scopes[i].kind == PreparationScope ==> IsPreparation(scopes[i].plan))
  }

  lemma PreparationMeans(plan: Plan)
    ensures IsPreparation(plan) <==> PreparationShape(plan)
  {
    if PreparationShape(plan) {
      assert plan.operations == [plan.operations[0]];
    }
  }

  /** A read is configured exactly when its context is in order; without one, when its plan loads. */
  lemma ConfiguredMeans(host: HostShape, plan: Plan)
    ensures Configured(host, plan) <==>
      match host.journal
      case None => Loads(host.kernel, plan, host.providers)
      case Some(context) => InContext(host, context, plan)
  {
    hide Configured, Loads, InContext;
    match host.journal {
      case None => OneScope(host, plan);
      case Some(context) => TwoLists(host, context, plan);
    }
  }

  lemma OneScope(host: HostShape, plan: Plan)
    requires host.journal.None?
    ensures Configured(host, plan) <==> Loads(host.kernel, plan, host.providers)
  {
    hide Loads;
    assert ScopesOf(host, plan)[0] == Scope(PublicationScope, plan);
    assert Registrations(host, plan)[0] == Registration(plan, host.providers, false);
  }

  lemma TwoLists(host: HostShape, context: JournalContext, plan: Plan)
    requires host.journal == Some(context)
    ensures Configured(host, plan) <==> InContext(host, context, plan)
  {
    hide AdmitsPlan, LoadsInto, DistinctPlans, PreparationShape, IsPreparation;
    var scopes, priors := context.scopes, context.supersededPlans;
    AllLoad(host, scopes, priors, plan.journalId);
    NoneTwice(host, scopes, priors);
    forall i | 0 <= i < |scopes| ensures IsPreparation(scopes[i].plan) <==> PreparationShape(scopes[i].plan) {
      PreparationMeans(scopes[i].plan);
    }
  }

  lemma AllLoad(host: HostShape, scopes: seq<Scope>, priors: seq<PriorPlan>, journalId: Text)
    ensures var all := ScopeRegistrations(host, scopes) + PriorRegistrations(priors);
      (forall i :: 0 <= i < |all| ==> AdmitsPlan(host, all[i], journalId)) <==>
        && (forall i :: 0 <= i < |scopes| ==> LoadsInto(host, scopes[i].plan, host.providers, journalId))
        && (forall i :: 0 <= i < |priors| ==> LoadsInto(host, priors[i].plan, priors[i].providers, journalId))
  {
    var first, second := ScopeRegistrations(host, scopes), PriorRegistrations(priors);
    AdmittedInTwoLists(host, first, second, journalId);
    hide Loads;
    forall i | 0 <= i < |scopes|
      ensures AdmitsPlan(host, first[i], journalId) <==> LoadsInto(host, scopes[i].plan, host.providers, journalId)
    {
    }
    forall i | 0 <= i < |priors|
      ensures AdmitsPlan(host, second[i], journalId) <==> LoadsInto(host, priors[i].plan, priors[i].providers, journalId)
    {
    }
  }

  lemma NoneTwice(host: HostShape, scopes: seq<Scope>, priors: seq<PriorPlan>)
    ensures DistinctPlans(ScopeRegistrations(host, scopes) + PriorRegistrations(priors)) <==>
      && (forall i, j :: 0 <= i < j < |scopes| ==> scopes[i].plan.planId != scopes[j].plan.planId)
      && (forall i, j :: 0 <= i < j < |priors| ==> priors[i].plan.planId != priors[j].plan.planId)
      && (forall i, j :: 0 <= i < |scopes| && 0 <= j < |priors| ==> scopes[i].plan.planId != priors[j].plan.planId)
  {
    var first, second := ScopeRegistrations(host, scopes), PriorRegistrations(priors);
    DistinctInTwoLists(first, second);
    assert forall i :: 0 <= i < |scopes| ==> first[i].plan == scopes[i].plan;
    assert forall j :: 0 <= j < |priors| ==> second[j].plan == priors[j].plan;
    forall id ensures id in PlanIds(first) <==> exists i :: 0 <= i < |scopes| && scopes[i].plan.planId == id {
      assert id in PlanIds(first) <==> IsRegistered(first, id);
      if i :| 0 <= i < |scopes| && scopes[i].plan.planId == id {
        assert first[i].plan.planId == id;
      }
    }
  }

  // ---- The history ----

  /** A plan's own recorded events: each could follow those before it, keeps its provider's contract, and carries the
      fingerprint of its own request; a preparation has one output; a historical plan was superseded unsent. */
  ghost predicate InOrderFor(host: HostShape, registration: Registration, events: History) {
    var kind := ScopeKindFor(host, registration.plan.planId);
    var defs := Definitions(registration.plan, registration.providers, host.kernel.core);
    && (forall k :: 0 <= k < |events| ==>
          && MayFollow(registration.plan, events, k, kind)
          && KeepsContract(defs, events, k)
          && (events[k].body.DispatchStarted? ==>
                host.fingerprint(events[k].body.start.request) == events[k].body.start.fingerprint))
    && (kind == PreparationScope ==> OneSelection(events))
    && (registration.superseded ==>
          && (exists k :: 0 <= k < |events| && events[k].body.PlanSuperseded?)
          && (forall k :: 0 <= k < |events| ==> !events[k].body.DispatchStarted?))
  }

  lemma ScopeMeans(host: HostShape, registration: Registration, events: History)
    ensures ScopeAdmits(host, registration, events) <==> InOrderFor(host, registration, events)
  {
    hide NativeVerdict, Admitted, OneSelection, MayFollow, KeepsContract;
    NativeExactly(Definitions(registration.plan, registration.providers, host.kernel.core), events);
    AdmittedExactly(registration.plan, events, ScopeKindFor(host, registration.plan.planId));
  }

  /** A journal is admitted exactly when the host is configured, every event is in this journal under an identity of
      its own and a registered plan, and each registered plan's own events are in order. */
  lemma ReadMeans(host: HostShape, plan: Plan, events: History)
    ensures ReadAdmits(host, plan, events) <==>
      && Configured(host, plan)
      && (forall i, j :: 0 <= i < j < |events| ==> events[i].eventId != events[j].eventId)
      && (forall i :: 0 <= i < |events| ==> events[i].journalId == plan.journalId)
      && (forall i :: 0 <= i < |events| ==> exists r :: r in Registrations(host, plan) && r.plan.planId == events[i].planId)
      && (forall r :: r in Registrations(host, plan) ==> InOrderFor(host, r, Scoped(events, r.plan.planId)))
  {
    hide ScopeAdmits, InOrderFor, Configured;
    var all := Registrations(host, plan);
    forall r: Registration ensures ScopeAdmits(host, r, Scoped(events, r.plan.planId)) <==> InOrderFor(host, r, Scoped(events, r.plan.planId)) {
      ScopeMeans(host, r, Scoped(events, r.plan.planId));
    }
    forall planId ensures IsRegistered(all, planId) <==> exists r :: r in all && r.plan.planId == planId {
      RegisteredMeans(all, planId);
    }
    assert forall i :: 0 <= i < |all| ==> all[i] in all;
  }

  lemma RegisteredMeans(all: seq<Registration>, planId: Text)
    ensures IsRegistered(all, planId) <==> exists r :: r in all && r.plan.planId == planId
  {
    if r :| r in all && r.plan.planId == planId {
      var i :| 0 <= i < |all| && all[i] == r;
    }
    if IsRegistered(all, planId) {
      var i :| 0 <= i < |all| && all[i].plan.planId == planId;
      assert all[i] in all;
    }
  }
}
