/** Multi-plan journal admission: every read re-validates the whole shared journal. */
module Host {
  import opened Texts
  import opened ReleaseModel
  import opened Decision
  import opened RiskLaws
  import opened Provider
  import opened Journal
  import opened PlanIdentity

  datatype Scope = Scope(kind: ScopeKind, plan: Plan)

  datatype PriorPlan = PriorPlan(plan: Plan, providers: seq<ProviderDefinition>)

  datatype JournalContext = JournalContext(journalId: Text, scopes: seq<Scope>, supersededPlans: seq<PriorPlan>)

  /** A decision evaluator over validated history. The application may supply any. */
  datatype Machine = Machine(
    statusOf: Text -> OperationStatus,
    next: (Text, Option<Candidate>, int) -> Result<Next>,
    append: Event -> Result<()>)

  type MachineConstructor = (Plan, History, ScopeKind) -> Result<Machine>

  datatype HostShape = HostShape(
    kernel: Kernel,
    fingerprint: RequestFacts -> Text,
    providers: seq<ProviderDefinition>,
    journal: Option<JournalContext>,
    machine: Option<MachineConstructor>)

  datatype Snapshot = Snapshot(revision: nat, events: History)

  datatype Admission = Admission(snapshot: Snapshot, machine: Machine)

  /** The kernel's own machine, the default. */
  function DefaultMachine(plan: Plan, events: History, kind: ScopeKind): Result<Machine> {
    match MachineOf(plan, events, kind)
    case Fail(refusal) => Fail(refusal)
    case Ok(machine) =>
      Ok(Machine(
        id => OperationStatusIn(machine.events, id, machine.kind),
        (id, candidate, now) => machine.NextStep(id, candidate, now),
        event => match machine.Append(event) case Fail(refusal) => Fail(refusal) case Ok(_) => Ok(())))
  }

  function BuildMachine(host: HostShape, plan: Plan, events: History, kind: ScopeKind): Result<Machine> {
    match host.machine
    case Some(build) => build(plan, events, kind)
    case None => DefaultMachine(plan, events, kind)
  }

  function JournalIdFor(host: HostShape, plan: Plan): Text {
    if host.journal.Some? then host.journal.value.journalId else plan.journalId
  }

  function FindScope(scopes: seq<Scope>, planId: Text): (r: Option<Scope>)
    ensures r.Some? ==> r.value in scopes && r.value.plan.planId == planId
    ensures r.None? ==> forall s :: s in scopes ==> s.plan.planId != planId
  {
    if scopes == [] then None
    else if scopes[0].plan.planId == planId then Some(scopes[0])
    else FindScope(scopes[1..], planId)
  }

  function ScopeKindFor(host: HostShape, planId: Text): ScopeKind {
    if host.journal.None? then PublicationScope
    else
      match FindScope(host.journal.value.scopes, planId)
      case Some(scope) => scope.kind
      case None => PublicationScope
  }

  // ---- Configuration: which plans this host admits to the journal ----

  /** A plan admitted to the journal, the providers that read its history, and whether it is a
      historical plan that must have been superseded before any dispatch. */
  datatype Registration = Registration(plan: Plan, providers: seq<ProviderDefinition>, superseded: bool)

  function ScopesOf(host: HostShape, plan: Plan): seq<Scope> {
    if host.journal.Some? then host.journal.value.scopes else [Scope(PublicationScope, plan)]
  }

  function PriorsOf(host: HostShape): seq<PriorPlan> {
    if host.journal.Some? then host.journal.value.supersededPlans else []
  }

  function ScopeRegistrations(host: HostShape, scopes: seq<Scope>): seq<Registration> {
    seq(|scopes|, i requires 0 <= i < |scopes| => Registration(scopes[i].plan, host.providers, false))
  }

  function PriorRegistrations(priors: seq<PriorPlan>): seq<Registration> {
    seq(|priors|, i requires 0 <= i < |priors| => Registration(priors[i].plan, priors[i].providers, true))
  }

  function Registrations(host: HostShape, plan: Plan): seq<Registration> {
    ScopeRegistrations(host, ScopesOf(host, plan)) + PriorRegistrations(PriorsOf(host))
  }

  const PREPARATION_PREFIX: Text := [112, 114, 101, 112, 97, 114, 97, 116, 105, 111, 110, 58]  // "preparation:"

  /** Preparation is exactly one input-bound operation without a future DAG. */
  predicate PreparationShape(plan: Plan) {
    && |plan.operations| == 1
    && plan.operations[0].dependsOn == []
    && plan.bundleId == PREPARATION_PREFIX + plan.operations[0].operationId
  }

  ghost predicate DistinctPlans(registrations: seq<Registration>) {
    forall i, j :: 0 <= i < j < |registrations| ==> registrations[i].plan.planId != registrations[j].plan.planId
  }

  ghost predicate OnePublication(scopes: seq<Scope>) {
    forall i, j :: 0 <= i < j < |scopes| ==> scopes[i].kind != PublicationScope || scopes[j].kind != PublicationScope
  }

  ghost predicate IsRegistered(registrations: seq<Registration>, planId: Text) {
    exists i :: 0 <= i < |registrations| && registrations[i].plan.planId == planId
  }

  ghost predicate AdmitsPlan(host: HostShape, registration: Registration, journalId: Text) {
    && Loads(host.kernel, registration.plan, registration.providers)
    && registration.plan.journalId == journalId
  }

  /** The static part of a read: everything that does not look at the journal. */
  ghost predicate Configured(host: HostShape, plan: Plan) {
    var scopes, registrations := ScopesOf(host, plan), Registrations(host, plan);
    && JournalIdFor(host, plan) == plan.journalId
    && OnePublication(scopes)
    && (forall i :: 0 <= i < |registrations| ==> AdmitsPlan(host, registrations[i], plan.journalId))
    && (forall i :: 0 <= i < |scopes| && scopes[i].kind == PreparationScope ==> PreparationShape(scopes[i].plan))
    && DistinctPlans(registrations)
    && (exists i :: 0 <= i < |scopes| && scopes[i].plan.planId == plan.planId)
  }

  // ---- History: what a read demands of the journal ----

  ghost predicate DistinctEventIds(events: History) {
    forall i, j :: 0 <= i < j < |events| ==> events[i].eventId != events[j].eventId
  }

  ghost predicate Enveloped(registrations: seq<Registration>, journalId: Text, events: History) {
    && DistinctEventIds(events)
    && (forall i :: 0 <= i < |events| ==>
          events[i].journalId == journalId && IsRegistered(registrations, events[i].planId))
  }

  predicate FingerprintsMatch(host: HostShape, events: History) {
    forall i :: 0 <= i < |events| && events[i].body.DispatchStarted? ==>
      events[i].body.start.fingerprint == host.fingerprint(events[i].body.start.request)
  }

  /** What a read demands of one plan's own events. */
  ghost predicate ScopeAdmits(host: HostShape, registration: Registration, events: History) {
    var kind := ScopeKindFor(host, registration.plan.planId);
    && FingerprintsMatch(host, events)
    && NativeVerdict(Definitions(registration.plan, registration.providers, host.kernel.core), events).Ok?
    && (kind == PreparationScope ==> OneSelection(events))
    && Admitted(registration.plan, events, kind)
    && (registration.superseded ==> SupersededIn(events) && !AnyStart(events))
  }

  /** The history part of a read. It does not depend on which registered plan asked. */
  ghost predicate HistoryAdmitted(
    host: HostShape, registrations: seq<Registration>, journalId: Text, events: History)
  {
    && Enveloped(registrations, journalId, events)
    && (forall i :: 0 <= i < |registrations| ==>
          ScopeAdmits(host, registrations[i], Scoped(events, registrations[i].plan.planId)))
  }

  /** The journals a read for this plan accepts, apart from what a supplied machine refuses. */
  ghost predicate ReadAdmits(host: HostShape, plan: Plan, events: History) {
    Configured(host, plan) && HistoryAdmitted(host, Registrations(host, plan), plan.journalId, events)
  }

  // ---- The read itself ----

  method SeveralPublications(scopes: seq<Scope>) returns (several: bool)
    ensures several <==> !OnePublication(scopes)
  {
    var publication := false;
    for k := 0 to |scopes|
      invariant publication <==> exists i :: 0 <= i < k && scopes[i].kind == PublicationScope
      invariant forall i, j :: 0 <= i < j < k ==> scopes[i].kind != PublicationScope || scopes[j].kind != PublicationScope
    {
      if scopes[k].kind == PublicationScope {
        if publication {
          return true;
        }
        publication := true;
      }
    }
    several := false;
  }

  /** One registration: loading, journal binding, and no plan registered twice. */
  method AdmitOne(
      host: HostShape, registration: Registration, journalId: Text, registered: set<Text>, duplicate: Refusal)
    returns (r: Result<()>)
    ensures r.Ok? <==> AdmitsPlan(host, registration, journalId) && registration.plan.planId !in registered
  {
    var loaded := LoadPlan(host.kernel, registration.plan, registration.providers);
    r := if loaded.Fail? then Fail(loaded.refusal)
         else if loaded.value.journalId != journalId then Fail(if registration.superseded then duplicate else JournalBinding)
         else if loaded.value.planId in registered then Fail(duplicate)
         else Ok(());
  }

  function PlanIds(registrations: seq<Registration>): (ids: set<Text>)
    ensures forall id :: id in ids <==> IsRegistered(registrations, id)
  {
    set i | 0 <= i < |registrations| :: registrations[i].plan.planId
  }

  ghost predicate ListAdmitted(
    host: HostShape, registrations: seq<Registration>, kinds: seq<ScopeKind>, journalId: Text, taken: set<Text>)
    requires |kinds| == |registrations|
  {
    && (forall i :: 0 <= i < |registrations| ==> AdmitsPlan(host, registrations[i], journalId))
    && (forall i :: 0 <= i < |registrations| && kinds[i] == PreparationScope ==> PreparationShape(registrations[i].plan))
    && DistinctPlans(registrations)
    && (forall i :: 0 <= i < |registrations| ==> registrations[i].plan.planId !in taken)
  }

  /** A list is admitted one registration at a time, and a refused one is refused for good. */
  lemma ListAdmittedNext(
      host: HostShape, registrations: seq<Registration>, kinds: seq<ScopeKind>, journalId: Text, taken: set<Text>, k: nat)
    requires k < |registrations| == |kinds|
    requires ListAdmitted(host, registrations[..k], kinds[..k], journalId, taken)
    ensures ListAdmitted(host, registrations[..k + 1], kinds[..k + 1], journalId, taken)
       <==> && AdmitsPlan(host, registrations[k], journalId)
            && registrations[k].plan.planId !in taken && !IsRegistered(registrations[..k], registrations[k].plan.planId)
            && (kinds[k] == PreparationScope ==> PreparationShape(registrations[k].plan))
    ensures ListAdmitted(host, registrations, kinds, journalId, taken)
        ==> ListAdmitted(host, registrations[..k + 1], kinds[..k + 1], journalId, taken)
  {
    hide AdmitsPlan, PreparationShape;
    var prior, more := registrations[..k], registrations[..k + 1];
    assert forall i :: 0 <= i < k ==> more[i] == prior[i] && kinds[..k + 1][i] == kinds[..k][i];
    assert more[k] == registrations[k] && kinds[..k + 1][k] == kinds[k];
    assert forall i :: 0 <= i < |more| ==> more[i] == registrations[i] && kinds[..k + 1][i] == kinds[i];
  }

  lemma PlanIdsNext(registrations: seq<Registration>, k: nat)
    requires k < |registrations|
    ensures PlanIds(registrations[..k + 1]) == PlanIds(registrations[..k]) + {registrations[k].plan.planId}
  {
    var prior, more := registrations[..k], registrations[..k + 1];
    assert more[k] == registrations[k];
    forall id ensures IsRegistered(more, id) <==> IsRegistered(prior, id) || id == registrations[k].plan.planId {
      if IsRegistered(prior, id) {
        var i :| 0 <= i < k && prior[i].plan.planId == id;
        assert more[i].plan.planId == id;
      }
    }
  }

  lemma NothingAdmitted(host: HostShape, journalId: Text, taken: set<Text>)
    ensures ListAdmitted(host, [], [], journalId, taken)
  {
  }

  /** Registers a list of plans beside those already taken. */
  method AdmitList(
      host: HostShape, registrations: seq<Registration>, kinds: seq<ScopeKind>, journalId: Text,
      taken: set<Text>, duplicate: Refusal)
    returns (r: Result<set<Text>>)
    requires |kinds| == |registrations|
    ensures r.Ok? <==> ListAdmitted(host, registrations, kinds, journalId, taken)
    ensures r.Ok? ==> r.value == taken + PlanIds(registrations)
  {
    hide AdmitsPlan, PreparationShape, ListAdmitted;
    NothingAdmitted(host, journalId, taken);
    var registered := taken;
    for k := 0 to |registrations|
      invariant registered == taken + PlanIds(registrations[..k])
      invariant ListAdmitted(host, registrations[..k], kinds[..k], journalId, taken)
    {
      PlanIdsNext(registrations, k);
      ListAdmittedNext(host, registrations, kinds, journalId, taken, k);
      var one := AdmitOne(host, registrations[k], journalId, registered, duplicate);
      if one.Fail? {
        return Fail(one.refusal);
      }
      if kinds[k] == PreparationScope && !PreparationShape(registrations[k].plan) {
        return Fail(PreparationScopeShape);
      }
      registered := registered + {registrations[k].plan.planId};
    }
    assert registrations[..|registrations|] == registrations && kinds[..|kinds|] == kinds;
    r := Ok(registered);
  }

  function Kinds(scopes: seq<Scope>): seq<ScopeKind> {
    seq(|scopes|, i requires 0 <= i < |scopes| => scopes[i].kind)
  }

  /** The configuration checks: the journal, the number of publications, then each registration in turn. */
  method Register(host: HostShape, plan: Plan) returns (r: Result<()>)
    ensures r.Ok? <==> Configured(host, plan)
  {
    var scopes, priors := ScopesOf(host, plan), PriorsOf(host);
    var first, second := ScopeRegistrations(host, scopes), PriorRegistrations(priors);
    var ordinary := seq(|priors|, i => PublicationScope);
    ConfiguredInTwoLists(host, plan, ordinary);
    if JournalIdFor(host, plan) != plan.journalId {
      return Fail(JournalBinding);
    }
    var several := SeveralPublications(scopes);
    if several {
      return Fail(PublicationScopeCount);
    }
    var registered := AdmitList(host, first, Kinds(scopes), plan.journalId, {}, DuplicateScope);
    if registered.Fail? {
      return Fail(registered.refusal);
    }
    if plan.planId !in registered.value {
      return Fail(UnregisteredScope);
    }
    registered := AdmitList(host, second, ordinary, plan.journalId, registered.value, SupersededPlanBinding);
    r := if registered.Fail? then Fail(registered.refusal) else Ok(());
  }

  lemma ConfiguredInTwoLists(host: HostShape, plan: Plan, ordinary: seq<ScopeKind>)
    requires ordinary == seq(|PriorsOf(host)|, i => PublicationScope)
    ensures var scopes := ScopesOf(host, plan);
      var first, second := ScopeRegistrations(host, scopes), PriorRegistrations(PriorsOf(host));
      Configured(host, plan) <==>
        && JournalIdFor(host, plan) == plan.journalId
        && OnePublication(scopes)
        && ListAdmitted(host, first, Kinds(scopes), plan.journalId, {})
        && plan.planId in PlanIds(first)
        && ListAdmitted(host, second, ordinary, plan.journalId, PlanIds(first))
  {
    hide Loads;
    var scopes := ScopesOf(host, plan);
    var first, second := ScopeRegistrations(host, scopes), PriorRegistrations(PriorsOf(host));
    assert Registrations(host, plan) == first + second;
    DistinctInTwoLists(first, second);
    AdmittedInTwoLists(host, first, second, plan.journalId);
    assert forall i :: 0 <= i < |scopes| ==> first[i].plan == scopes[i].plan;
    assert forall i :: 0 <= i < |scopes| ==> Kinds(scopes)[i] == scopes[i].kind;
  }

  lemma DistinctInTwoLists(first: seq<Registration>, second: seq<Registration>)
    ensures DistinctPlans(first + second)
       <==> DistinctPlans(first) && DistinctPlans(second)
            && (forall i :: 0 <= i < |second| ==> second[i].plan.planId !in PlanIds(first))
  {
    var all := first + second;
    assert forall i :: 0 <= i < |first| ==> all[i] == first[i];
    assert forall i :: 0 <= i < |second| ==> all[|first| + i] == second[i];
  }

  lemma AdmittedInTwoLists(host: HostShape, first: seq<Registration>, second: seq<Registration>, journalId: Text)
    ensures (forall i :: 0 <= i < |first + second| ==> AdmitsPlan(host, (first + second)[i], journalId))
       <==> (forall i :: 0 <= i < |first| ==> AdmitsPlan(host, first[i], journalId))
            && (forall i :: 0 <= i < |second| ==> AdmitsPlan(host, second[i], journalId))
  {
    var all := first + second;
    assert forall i :: 0 <= i < |first| ==> all[i] == first[i];
    assert forall i :: 0 <= i < |second| ==> all[|first| + i] == second[i];
  }

  // ---- Reading: registration, envelope, then each registered plan's own history ----

  method CheckEnvelope(ids: set<Text>, journalId: Text, events: History) returns (r: Result<()>)
    ensures r.Ok? <==> DistinctEventIds(events)
                       && forall i :: 0 <= i < |events| ==> events[i].journalId == journalId && events[i].planId in ids
  {
    var seen: set<Text> := {};
    for k := 0 to |events|
      invariant forall id :: id in seen <==> exists i :: 0 <= i < k && events[i].eventId == id
      invariant forall i, j :: 0 <= i < j < k ==> events[i].eventId != events[j].eventId
      invariant forall i :: 0 <= i < k ==> events[i].journalId == journalId && events[i].planId in ids
    {
      if events[k].journalId != journalId || events[k].planId !in ids || events[k].eventId in seen {
        return Fail(JournalEnvelope);
      }
      seen := seen + {events[k].eventId};
    }
    r := Ok(());
  }

  lemma {:induction false} AdmittedPrefix(plan: Plan, events: History, k: nat, kind: ScopeKind)
    requires k <= |events| && Admitted(plan, events, kind)
    ensures Admitted(plan, events[..k], kind)
    ensures k < |events| ==> AssertJournalAppend(plan, events[..k], events[k], kind).Ok?
    decreases |events|
  {
    if k == |events| {
      assert events[..k] == events;
    } else if k < |events| - 1 {
      var prior := events[..|events| - 1];
      AdmittedPrefix(plan, prior, k, kind);
      assert prior[..k] == events[..k] && prior[k] == events[k];
    }
  }

  method CheckAppends(plan: Plan, events: History, kind: ScopeKind) returns (r: Result<()>)
    ensures r.Ok? <==> Admitted(plan, events, kind)
  {
    for k := 0 to |events|
      invariant Admitted(plan, events[..k], kind)
    {
      r := AssertJournalAppend(plan, events[..k], events[k], kind);
      if r.Fail? {
        if Admitted(plan, events, kind) {
          AdmittedPrefix(plan, events, k, kind);
        }
        return r;
      }
      assert events[..k + 1][..k] == events[..k] && events[..k + 1][k] == events[k];
    }
    assert events[..|events|] == events;
    r := Ok(());
  }

  /** Everything a read checks of one plan's own events. */
  method AdmitScope(host: HostShape, registration: Registration, events: History) returns (r: Result<()>)
    ensures r.Ok? <==> ScopeAdmits(host, registration, events)
  {
    hide Admitted, NativeVerdict, OneSelection;
    var kind := ScopeKindFor(host, registration.plan.planId);
    if !FingerprintsMatch(host, events) {
      return Fail(RequestFingerprint);
    }
    r := VerifyNativeEvidence(Definitions(registration.plan, registration.providers, host.kernel.core), events);
    if r.Fail? {
      return r;
    }
    if kind == PreparationScope {
      r := VerifyPreparationSelection(events);
      if r.Fail? {
        return r;
      }
    }
    r := CheckAppends(registration.plan, events, kind);
    if r.Fail? {
      return r;
    }
    r := if registration.superseded && (!SupersededIn(events) || AnyStart(events)) then Fail(SupersededPlanHistory) else Ok(());
  }

  /** The plan registered under this identity, and the machine a read builds for it. */
  function SelectedMachine(host: HostShape, plan: Plan, events: History): Result<Machine> {
    match FindScope(ScopesOf(host, plan), plan.planId)
    case None => Fail(InvalidData)
    case Some(scope) =>
      BuildMachine(host, scope.plan, Scoped(events, plan.planId), ScopeKindFor(host, plan.planId))
  }

  method AdmitHistory(host: HostShape, registrations: seq<Registration>, journalId: Text, events: History)
    returns (r: Result<()>)
    ensures r.Ok? <==> HistoryAdmitted(host, registrations, journalId, events)
  {
    hide ScopeAdmits;
    r := CheckEnvelope(PlanIds(registrations), journalId, events);
    if r.Fail? {
      return r;
    }
    for k := 0 to |registrations|
      invariant forall i :: 0 <= i < k ==>
        ScopeAdmits(host, registrations[i], Scoped(events, registrations[i].plan.planId))
    {
      r := AdmitScope(host, registrations[k], Scoped(events, registrations[k].plan.planId));
      if r.Fail? {
        return r;
      }
    }
    r := Ok(());
  }

  /** `read`: a snapshot is admitted together with its decision machine, or refused. */
  method Read(host: HostShape, plan: Plan, now: int, stored: Snapshot) returns (r: Result<Admission>)
    ensures r.Ok? <==>
      && IsTime(now)
      && stored.revision == |stored.events|
      && ReadAdmits(host, plan, stored.events)
      && SelectedMachine(host, plan, stored.events).Ok?
    ensures r.Ok? ==> r.value == Admission(stored, SelectedMachine(host, plan, stored.events).value)
  {
    hide Configured, HistoryAdmitted, SelectedMachine;
    if !IsTime(now) {
      return Fail(HostTime);
    }
    var registered := Register(host, plan);
    if registered.Fail? {
      return Fail(registered.refusal);
    }
    if stored.revision != |stored.events| {
      return Fail(JournalRevision);
    }
    var history := AdmitHistory(host, Registrations(host, plan), plan.journalId, stored.events);
    if history.Fail? {
      return Fail(history.refusal);
    }
    var machine := SelectedMachine(host, plan, stored.events);
    r := match machine case Fail(refusal) => Fail(refusal) case Ok(m) => Ok(Admission(stored, m));
  }
}
