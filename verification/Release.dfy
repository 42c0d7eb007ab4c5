/** The release interpreter: one visit per operation, one send per fresh dispatch, and facts that
    are retried under a stable identity. Every effect it has is a step of the shared protocol. */
module Release {
  import opened Texts
  import opened JsonData
  import opened ReleaseModel
  import opened Decision
  import opened HistoryLaws
  import opened Provider
  import opened Journal
  import opened NativeLaws
  import opened Dag
  import opened PlanIdentity
  import opened Host
  import opened Admission
  import opened Protocol
  import opened ProtocolInvariant
  import opened ProtocolSafety
  import opened Progress

  datatype SendResult =
    | Accepted(receipt: Json)
    | RejectedBeforeCommit(proof: Json)
    | Unknown(nativeError: Option<Json>)
    | CoreError

  datatype StoreAnswer = Stored | StoredBefore | Mismatch | AmbiguousOutcome

  /** Everything the interpreter is told by the outside, as functions of when it asks. */
  datatype Script = Script(
    others: (nat, World) -> World,                 // what everyone else does meanwhile
    now: nat -> int,
    uniqueId: map<Text, Event> -> Text,
    prepare: (nat, Operation, ProviderContext) -> Result<RequestFacts>,
    ready: (nat, RequestFacts) -> bool,            // verified request, bound and prepared transport
    send: (nat, RequestFacts) -> SendResult,
    describe: (RequestFacts, SendResult) -> Json,  // the kernel's own credential-free evidence
    observe: (nat, Operation, ProviderContext) -> Result<(ObservationStatus, Json)>,
    lands: nat -> bool,                            // the store applies the append now, if it still can
    answers: nat -> StoreAnswer)                   // what it then reports, if that is true

  datatype RunOptions = RunOptions(authorize: bool, maxDispatches: Option<int>, observe: bool)

  // ---- What is assumed of the outside ----

  /** Other runners, the store and the remote take some steps of the protocol. */
  ghost predicate Steps(c: Config, me: nat, w: World, v: World) {
    exists actions :: OthersRun(c, me, w, actions) && Follow(w, actions) == v
  }

  ghost predicate OthersRun(c: Config, me: nat, w: World, actions: seq<Action>) {
    forall i :: 0 <= i < |actions| ==> Enabled(c, Follow(w, actions[..i]), actions[i]) && Mover(actions[i]) != Some(me)
  }

  ghost predicate Honest(c: Config, me: nat, script: Script) {
    && (forall t, w :: Reachable(c, w) ==> Steps(c, me, w, script.others(t, w)))
    && (forall created :: script.uniqueId(created) !in created)
  }

  /** The store never claims to hold an append that it does not hold. */
  function Reply(w: World, a: Append, answer: StoreAnswer): StoreAnswer {
    if (answer.Stored? && !Landed(w, a)) || (answer.StoredBefore? && !Recorded(w, a.event)) then Mismatch else answer
  }

  /** Nothing recorded, issued, sent or refused is ever taken back. */
  ghost predicate Later(w: World, v: World) {
    Extends(w, v) && w.issued <= v.issued && w.sends <= v.sends && w.refused <= v.refused
  }

  lemma ActIsLater(c: Config, w: World, a: Action)
    requires Enabled(c, w, a)
    ensures Later(w, Act(w, a))
  {
    hide Vetted, Recorded, Landed, Extends;
    ActExtends(c, w, a);
  }

  lemma {:induction false} OthersKeep(c: Config, me: nat, w: World, actions: seq<Action>)
    requires OthersRun(c, me, w, actions)
    ensures Later(w, Follow(w, actions)) && At(Follow(w, actions), me) == At(w, me)
  {
    hide Enabled, Act, At;
    if actions != [] {
      var prior, last := actions[..|actions| - 1], actions[|actions| - 1];
      forall i | 0 <= i < |prior| ensures prior[..i] == actions[..i] {
      }
      OthersKeep(c, me, w, prior);
      ActIsLater(c, Follow(w, prior), last);
      OnlyMoverMoves(c, Follow(w, prior), last, me);
    }
  }

  lemma StepsKeep(c: Config, me: nat, w: World, v: World)
    requires Reachable(c, w) && Steps(c, me, w, v)
    ensures Reachable(c, v) && Later(w, v) && At(v, me) == At(w, me)
  {
    hide Reachable, Enabled, Act, At, Later;
    var actions :| OthersRun(c, me, w, actions) && Follow(w, actions) == v;
    FollowReachable(c, w, actions);
    OthersKeep(c, me, w, actions);
  }

  /** The journal holds this body for this plan. */
  predicate BodyRecorded(w: World, planId: Text, body: Body) {
    exists i :: 0 <= i < |w.journal| && w.journal[i].body == body && w.journal[i].planId == planId
  }

  /** A fresh identity names no recorded event and no recorded dispatch. */
  lemma FreshIsUnrecorded(c: Config, w: World, id: Text)
    requires Reachable(c, w) && id !in w.created
    ensures !HasEventId(w.journal, id) && !HasStart(w.journal, id + DISPATCH_SUFFIX)
  {
    hide Reachable, Vetted;
    ReachableInv(c, w);
    if HasStart(w.journal, id + DISPATCH_SUFFIX) {
      var i :| 0 <= i < |w.journal| && w.journal[i].body.DispatchStarted?
               && w.journal[i].body.start.dispatchId == id + DISPATCH_SUFFIX;
      assert Known(w, w.journal[i]);
      SuffixInjective(w.journal[i].eventId, id);
    }
  }

  /** A journal holds nothing else under the identity of a recorded event. */
  lemma SameIdentityRecorded(c: Config, w: World, existing: Event, fact: Event)
    requires Reachable(c, w) && existing in w.journal && existing.eventId == fact.eventId && existing != fact
    ensures !Recorded(w, fact)
  {
    hide Reachable, Inv;
    ReachableInv(c, w);
    RecordedOnce(c, w);
    var i :| 0 <= i < |w.journal| && w.journal[i] == existing;
    forall j | 0 <= j < |w.journal| ensures w.journal[j] != fact {
      assert i < j || j < i ==> w.journal[j].eventId != w.journal[i].eventId;
    }
  }

  /** The checks made before an append, in the order of the refusals they give. */
  method VerifyWrite(host: HostShape, plan: Plan, events: History, event: Event) returns (r: Result<()>)
    requires event.journalId == plan.journalId && event.planId == plan.planId
    requires !HasEventId(events, event.eventId)
    requires event.body.DispatchStarted? ==> event.body.start.fingerprint == host.fingerprint(event.body.start.request)
    ensures r.Ok? <==> WriteAdmits(host, plan, events, event)
  {
    hide NativeVerdict, OneSelection, AssertJournalAppend;
    var scoped := Scoped(events, plan.planId) + [event];
    r := VerifyNativeEvidence(DefinitionsFor(host, plan), scoped);
    if r.Fail? {
      return r;
    }
    if !event.body.DispatchStarted? && ScopeKindFor(host, plan.planId) == PreparationScope {
      r := VerifyPreparationSelection(scoped);
      if r.Fail? {
        return r;
      }
    }
    r := AssertJournalAppend(plan, Scoped(events, plan.planId), event, ScopeKindFor(host, plan.planId));
  }

  /** The result a provider accepts as Satisfied. */
  predicate AcceptedBy(provider: ProviderDefinition, o: Operation, request: RequestFacts, result: SendResult) {
    && result.Accepted?
    && (var decoded := NativeEvidence(provider.receiptCodec, result.receipt);
        && decoded.Ok?
        && provider.receiptCorresponds(o, request, decoded.value)
        && provider.classifyReceipt(o, request, decoded.value) == Satisfied)
  }

  lemma LaterKeepsIssued(w: World, v: World, append: Append)
    requires Later(w, v) && append in w.issued
    ensures append in v.issued
  {
  }

  lemma LaterTwice(w: World, u: World, v: World)
    requires Later(w, u) && (v == u || Later(u, v))
    ensures Later(w, v)
  {
  }

  lemma ReadBindsJournal(host: HostShape, plan: Plan, events: History)
    requires ReadAdmits(host, plan, events)
    ensures JournalIdFor(host, plan) == plan.journalId
  {
  }

  /** `snapshot.events.find((item) => item.eventId === event.eventId)`. */
  function FindEvent(events: History, eventId: Text): (r: Option<Event>)
    ensures r.Some? ==> r.value in events && r.value.eventId == eventId
    ensures r.None? <==> !HasEventId(events, eventId)
  {
    if events == [] then None
    else if events[0].eventId == eventId then Some(events[0])
    else
      assert events == [events[0]] + events[1..];
      assert forall i :: 0 < i < |events| ==> events[i] == events[1..][i - 1];
      FindEvent(events[1..], eventId)
  }

  class ReleaseRun {
    const config: Config
    const me: nat
    const who: Actor
    const script: Script
    const options: RunOptions
    var world: World
    var tick: nat
    var visited: set<Text>
    var dispatches: nat
    ghost var visits: seq<Text>         // operations in the order they were visited
    ghost var sent: seq<(Text, Text)>   // operation and dispatch of each send, in order

    constructor (config: Config, me: nat, who: Actor, script: Script, options: RunOptions, world: World)
      requires Reachable(config, world) && ValidActor(config, who) && Honest(config, me, script)
      requires At(world, me).Idle?
      ensures Valid() && Pc().Idle? && this.world == world
      ensures this.config == config && this.me == me && this.who == who && this.script == script && this.options == options
      ensures visited == {} && dispatches == 0 && visits == [] && sent == [] && tick == 0
    {
      this.config, this.me, this.who, this.script, this.options := config, me, who, script, options;
      this.world, tick, visited, dispatches, visits, sent := world, 0, {}, 0, [], [];
    }

    /** The run is at a state the protocol reaches, so every guarantee about those holds here. */
    ghost predicate Valid()
      reads this`world
    {
      Reachable(config, world) && ValidActor(config, who) && Honest(config, me, script)
    }

    function HostOf(): HostShape
      requires who.host < |config.hosts|
    {
      config.hosts[who.host]
    }

    function PlanOf(): Plan
      requires who.planId in config.plans
    {
      config.plans[who.planId]
    }

    function Pc(): Runner
      reads this`world
    {
      At(world, me)
    }

    /** A lone run whose clock, store, transport and providers never refuse. */
    ghost predicate Favoured()
      requires ValidActor(config, who)
    {
      && (forall t, w :: script.others(t, w) == w)
      && (forall t :: IsTime(script.now(t)))
      && (forall t :: script.lands(t) && script.answers(t) == Stored)
      && HostOf().machine.None?
      && (forall o, context, t :: o in PlanOf().operations ==> Prepared(t, o, context))
    }

    ghost predicate Prepared(t: nat, o: Operation, context: ProviderContext)
      requires ValidActor(config, who)
    {
      script.prepare(t, o, context).Ok? && Accepting(o, script.prepare(t, o, context).value, context)
    }

    /** The providers, the transport and the remote take this request. */
    ghost predicate Accepting(o: Operation, request: RequestFacts, context: ProviderContext)
      requires ValidActor(config, who)
    {
      var found := FindProvider(HostOf().providers, o.definitionId);
      && found.Some?
      && found.value.requestCorresponds(o, request, context)
      && (forall t :: script.ready(t, request))
      && (forall t :: AcceptedBy(found.value, o, request, script.send(t, request)))
    }

    // ---- Effects ----

    method Others()
      requires Valid()
      modifies this`world
      ensures Valid() && Later(old(world), world) && Pc() == old(Pc())
      ensures Favoured() ==> world == old(world)
    {
      hide Reachable, Steps, Later, At, ValidActor;
      StepsKeep(config, me, world, script.others(tick, world));
      world := script.others(tick, world);
    }

    /** One protocol step of this run, or of the store or the remote on its behalf. */
    method Take(a: Action)
      requires Valid() && Enabled(config, world, a)
      modifies this`world
      ensures Valid() && world == Act(old(world), a) && Later(old(world), world)
    {
      hide Reachable, Enabled, Act, Later;
      ReachableStep(config, world, a);
      ActIsLater(config, world, a);
      world := Act(world, a);
    }

    /** `read(host, plan)`: the admitted journal at this instant. */
    method ReadJournal() returns (r: Result<Host.Admission>)
      requires Valid()
      modifies this`world, this`tick
      ensures Valid() && Later(old(world), world) && Pc() == old(Pc()) && (Favoured() ==> world == old(world))
      ensures r.Ok? <==> IsTime(script.now(old(tick))) && ReadAdmits(HostOf(), PlanOf(), world.journal)
                         && SelectedMachine(HostOf(), PlanOf(), world.journal).Ok?
      ensures r.Ok? ==> r.value.snapshot == Snapshot(|world.journal|, world.journal)
                        && SelectedMachine(HostOf(), PlanOf(), world.journal) == Ok(r.value.machine)
    {
      hide Reachable, Honest, ReadAdmits, SelectedMachine, Later, At, OwnScope;
      Others();
      r := Read(HostOf(), PlanOf(), script.now(tick), Snapshot(|world.journal|, world.journal));
      tick := tick + 1;
    }

    /** `store.append`: an issued append lands now, has landed, lands later or never. */
    method Store(append: Append) returns (answer: StoreAnswer)
      requires Valid() && append in world.issued
      modifies this`world, this`tick
      ensures Valid() && Later(old(world), world) && Pc() == old(Pc())
      ensures answer.Stored? ==> Landed(world, append)
      ensures answer.StoredBefore? ==> Recorded(world, append.event)
      ensures Favoured() && append.revision == |old(world).journal| ==>
        answer.Stored? && world.journal == old(world).journal + [append.event] && world.created == old(world).created
    {
      hide Reachable, Honest, ValidActor, Later, Extends;
      ghost var before := world;
      Others();
      LaterKeepsIssued(before, world, append);
      ghost var middle := world;
      if script.lands(tick) && append.revision == |world.journal| {
        Take(Land(append));
      }
      LaterTwice(before, middle, world);
      answer := Reply(world, append, script.answers(tick));
      tick := tick + 1;
    }

    /** Append a decided dispatch. A permit is owned only when this very append was recorded:
        AlreadyRecorded and a lost race never give one. */
    method AppendDecided() returns (r: Result<bool>, ghost answer: StoreAnswer)
      requires Valid() && Pc().Decided?
      modifies this`world, this`tick
      ensures Valid() && Later(old(world), world)
      ensures if r == Ok(true) then Pc() == Owner(old(Pc()).append) else Pc().Idle?
      ensures answer.Stored? ==> r == Ok(true)
      ensures answer.StoredBefore? || answer.Mismatch? ==> r == Ok(false)
      ensures answer.AmbiguousOutcome? && r.Ok? ==> (r.value <==> Recorded(world, old(Pc()).append.event))
      ensures Favoured() && old(Pc()).append.revision == |old(world).journal| ==>
        r == Ok(true) && world.journal == old(world).journal + [old(Pc()).append.event] && world.created == old(world).created
    {
      hide Reachable, Honest, ValidActor, Favoured, Vetted, Later, ReadAdmits, SelectedMachine;
      var append := Pc().append;
      var reply := IssueAndStore();
      answer := reply;
      ghost var first := world;
      if reply.Stored? {
        Take(Appended(me));
        LaterTwice(old(world), first, world);
        return Ok(true), answer;
      }
      if !reply.AmbiguousOutcome? {
        Take(NotAppended(me));
        LaterTwice(old(world), first, world);
        return Ok(false), answer;
      }
      r := ReconcileDispatch();
      LaterTwice(old(world), first, world);
    }

    /** After an ambiguous outcome: this invocation still owns the unsent call stack, so finding the
        exact event recorded makes it the owner. */
    method ReconcileDispatch() returns (r: Result<bool>)
      requires Valid() && Pc().Awaiting?
      modifies this`world, this`tick
      ensures Valid() && Later(old(world), world)
      ensures if r == Ok(true) then Pc() == Owner(old(Pc()).append) else Pc().Idle?
      ensures r.Ok? ==> (r.value <==> Recorded(world, old(Pc()).append.event))
    {
      hide Reachable, Honest, ValidActor, Favoured, Vetted, Later, ReadAdmits, SelectedMachine;
      Take(Ambiguous(me));
      ghost var first := world;
      var reconciled := ReadJournal();
      LaterTwice(old(world), first, world);
      ghost var second := world;
      if reconciled.Fail? {
        Take(Stop(me));
        LaterTwice(old(world), second, world);
        return Fail(reconciled.refusal);
      }
      Take(Reconcile(me));
      LaterTwice(old(world), second, world);
      r := Ok(Pc().Owner?);
    }

    /** The append of the event this run decided on, as the store sees it. */
    method IssueAndStore() returns (answer: StoreAnswer)
      requires Valid() && (Pc().Decided? || Pc().FactDecided?)
      modifies this`world, this`tick
      ensures Valid() && Later(old(world), world)
      ensures old(Pc()).Decided? ==> Pc() == Awaiting(old(Pc()).append)
      ensures old(Pc()).FactDecided? ==> Pc() == FactAwaiting(old(Pc()).append, old(Pc()).tries)
      ensures answer.Stored? ==> Landed(world, old(Pc()).append)
      ensures answer.StoredBefore? ==> Recorded(world, old(Pc()).append.event)
      ensures Favoured() && old(Pc()).append.revision == |old(world).journal| ==>
        answer.Stored? && world.journal == old(world).journal + [old(Pc()).append.event] && world.created == old(world).created
    {
      hide Reachable, Honest, ValidActor, Favoured, Vetted, Later, Recorded;
      Others();
      ghost var first := world;
      Take(Issue(me));
      LaterTwice(old(world), first, world);
      ghost var second := world;
      answer := Store(Pc().append);
      LaterTwice(old(world), second, world);
    }

    /** A read of this journal succeeds, clock permitting. */
    ghost predicate Readable(w: World)
      requires ValidActor(config, who)
    {
      ReadAdmits(HostOf(), PlanOf(), w.journal) && SelectedMachine(HostOf(), PlanOf(), w.journal).Ok?
    }

    /** One round of appendFact: recorded, to be tried again, or refused. */
    method TryFact(fact: Event, tries: nat) returns (r: Result<bool>)
      requires Valid() && Pc() == FactReady(fact, who, tries) && tries < MAX_TRIES
      requires fact.planId == PlanOf().planId && fact.journalId == JournalIdFor(HostOf(), PlanOf())
      requires !fact.body.DispatchStarted?
      modifies this`world, this`tick
      ensures Valid() && Later(old(world), world)
      ensures r == Ok(true) ==> Pc() == FactDone(fact)
      ensures r == Ok(false) ==> Pc() == if tries + 1 < MAX_TRIES then FactReady(fact, who, tries + 1) else FactFailed(fact)
      ensures r.Fail? ==> Pc() == FactFailed(fact)
      ensures r.Fail? && IsTime(script.now(old(tick))) && Readable(world) ==> !Recorded(world, fact)
      ensures Favoured() && FactWelcome(old(world), fact) ==>
        r == Ok(true) && world.journal == old(world).journal + [fact] && world.created == old(world).created
    {
      hide Reachable, Honest, ReadAdmits, WriteAdmits, SelectedMachine, OwnScope, Later, Vetted, Favoured;
      var admitted := ReadJournal();
      FavouredClock();
      if Favoured() && FactWelcome(old(world), fact) {
        WelcomeIsRead(world.journal, fact);
      }
      ghost var first := world;
      if admitted.Fail? {
        Take(RejectFact(me));
        LaterTwice(old(world), first, world);
        return Fail(admitted.refusal);
      }
      var existing := FindEvent(admitted.value.snapshot.events, fact.eventId);
      if existing.Some? {
        if existing.value != fact {
          SameIdentityRecorded(config, world, existing.value, fact);
          Take(RejectFact(me));
          LaterTwice(old(world), first, world);
          return Fail(EventIdConflict);
        }
        Take(FindFact(me));
        LaterTwice(old(world), first, world);
        return Ok(true);
      }
      ReadBindsJournal(HostOf(), PlanOf(), world.journal);
      ghost var middle := world;
      r := DecideFactIfAllowed(admitted.value.machine, fact, tries);
      LaterTwice(old(world), middle, world);
    }

    /** The write-side checks, and the append of a fact that passed them. */
    method DecideFactIfAllowed(machine: Machine, fact: Event, tries: nat) returns (r: Result<bool>)
      requires Valid() && Pc() == FactReady(fact, who, tries) && tries < MAX_TRIES
      requires fact.planId == PlanOf().planId && fact.journalId == PlanOf().journalId && !fact.body.DispatchStarted?
      requires ReadAdmits(HostOf(), PlanOf(), world.journal) && !HasEventId(world.journal, fact.eventId)
      modifies this`world, this`tick
      ensures Valid() && Later(old(world), world)
      ensures r == Ok(true) ==> Pc() == FactDone(fact)
      ensures r == Ok(false) ==> Pc() == if tries + 1 < MAX_TRIES then FactReady(fact, who, tries + 1) else FactFailed(fact)
      ensures r.Fail? ==> Pc() == FactFailed(fact) && world.journal == old(world).journal
      ensures r.Ok? ==> WriteAdmits(HostOf(), PlanOf(), old(world).journal, fact) && machine.append(fact).Ok?
      ensures Favoured() && FactWelcome(old(world), fact) && machine.append(fact).Ok? ==>
        r == Ok(true) && world.journal == old(world).journal + [fact] && world.created == old(world).created
    {
      hide Reachable, Honest, ReadAdmits, WriteAdmits, OwnScope, Later, Favoured;
      var checked := VerifyWrite(HostOf(), PlanOf(), world.journal, fact);
      if checked.Fail? {
        Take(RejectFact(me));
        return Fail(checked.refusal);
      }
      var next := machine.append(fact);
      if next.Fail? {
        Take(RejectFact(me));
        return Fail(next.refusal);
      }
      Take(DecideFact(me));
      ghost var middle := world;
      r := FinishFact(fact, tries);
      LaterTwice(old(world), middle, world);
    }

    lemma FavouredClock()
      requires ValidActor(config, who)
      ensures Favoured() ==> HostOf().machine.None? && forall t :: IsTime(script.now(t))
    {
      hide OwnScope;
    }

    ghost predicate FactWelcome(w: World, fact: Event)
      requires ValidActor(config, who)
    {
      ReadAdmits(HostOf(), PlanOf(), w.journal) && WriteAdmits(HostOf(), PlanOf(), w.journal, fact)
    }

    lemma WelcomeIsRead(events: History, event: Event)
      requires ValidActor(config, who) && HostOf().machine.None?
      requires ReadAdmits(HostOf(), PlanOf(), events) && WriteAdmits(HostOf(), PlanOf(), events, event)
      ensures SelectedMachine(HostOf(), PlanOf(), events).Ok?
      ensures SelectedMachine(HostOf(), PlanOf(), events).value.append(event).Ok?
      ensures !HasEventId(events, event.eventId)
    {
      hide ReadAdmits, SelectedMachine, OwnScope, NativeVerdict, OneSelection, AssertJournalAppend;
      DefaultMachineReads(HostOf(), PlanOf(), events, event.eventId, None, 0, event);
    }

    method FinishFact(fact: Event, tries: nat) returns (r: Result<bool>)
      requires Valid() && Pc().FactDecided? && Pc().append.event == fact && Pc().append.who == who && Pc().tries == tries < MAX_TRIES
      modifies this`world, this`tick
      ensures Valid() && Later(old(world), world) && r.Ok?
      ensures r == Ok(true) ==> Pc() == FactDone(fact)
      ensures r == Ok(false) ==> Pc() == if tries + 1 < MAX_TRIES then FactReady(fact, who, tries + 1) else FactFailed(fact)
      ensures Favoured() && old(Pc()).append.revision == |old(world).journal| ==>
        r == Ok(true) && world.journal == old(world).journal + [fact] && world.created == old(world).created
    {
      hide Reachable, Honest, ValidActor, Favoured, Vetted, Later, Recorded;
      var answer := IssueAndStore();
      ghost var first := world;
      if answer.Stored? || answer.StoredBefore? {
        if answer.Stored? { LandedIsRecorded(world, old(Pc()).append); }
        Take(FactRecorded(me));
        LaterTwice(old(world), first, world);
        return Ok(true);
      }
      Take(RetryFact(me));
      LaterTwice(old(world), first, world);
      r := Ok(false);
    }

    /** Facts survive a lost race; their identity is retained across the retries. */
    method AppendFact(fact: Event) returns (r: Result<()>)
      requires Valid() && Pc() == FactReady(fact, who, 0)
      requires fact.planId == PlanOf().planId && fact.journalId == JournalIdFor(HostOf(), PlanOf())
      requires !fact.body.DispatchStarted?
      modifies this`world, this`tick
      ensures Valid() && Later(old(world), world)
      ensures Pc() == if r.Ok? then FactDone(fact) else FactFailed(fact)
      ensures Favoured() && FactWelcome(old(world), fact) ==>
        r.Ok? && world.journal == old(world).journal + [fact] && world.created == old(world).created
    {
      hide Reachable, Honest, Favoured, ValidActor, FactWelcome;
      for retry := 0 to MAX_TRIES
        invariant Valid() && Later(old(world), world)
        invariant Pc() == if retry < MAX_TRIES then FactReady(fact, who, retry) else FactFailed(fact)
        invariant Favoured() && FactWelcome(old(world), fact) ==> retry == 0 && world == old(world)
      {
        var recorded := TryFact(fact, retry);
        if recorded.Fail? {
          return Fail(recorded.refusal);
        }
        if recorded.value {
          return Ok(());
        }
      }
      r := Fail(JournalContention);
    }

    /** `eventFor` with a fresh identity, then appendFact. */
    method AppendBody(body: Body) returns (r: Result<()>)
      requires Valid() && Pc().Idle?
      requires body.ObservationRecorded? || body.RiskAccepted? || body.PlanSuperseded?
      modifies this`world, this`tick
      ensures Valid() && Later(old(world), world) && Pc().Idle?
      ensures r.Ok? ==> BodyRecorded(world, PlanOf().planId, body)
    {
      hide Reachable, Later, Vetted, OwnScope, FactWelcome, Favoured;
      var fact := Event(script.uniqueId(world.created), JournalIdFor(HostOf(), PlanOf()), PlanOf().planId, body);
      Take(NewFact(me, who, fact));
      ghost var first := world;
      r := AppendFact(fact);
      LaterTwice(old(world), first, world);
      if r.Ok? { DoneIsRecorded(fact, PlanOf().planId); }
      ghost var second := world;
      Take(Stop(me));
      LaterTwice(old(world), second, world);
    }

    lemma DoneIsRecorded(fact: Event, planId: Text)
      requires Valid() && Pc() == FactDone(fact) && fact.planId == planId
      ensures BodyRecorded(world, planId, fact.body)
    {
      hide Reachable, Vetted;
      ReachableInv(config, world);
      assert RunnerOk(config, world, Pc());
      var i :| 0 <= i < |world.journal| && world.journal[i] == fact;
    }

    /** An observation is recorded under the admitted prefix it was made on. */
    method RecordObservation(o: Operation, boundary: ObservationBoundary, events: History) returns (r: Result<()>)
      requires Valid() && Pc().Idle?
      modifies this`world, this`tick
      ensures Valid() && Later(old(world), world) && Pc().Idle?
      ensures r.Ok? ==> ObservationPut(old(tick), o, boundary, events)
      ensures r.Ok? ==> LookedAt(world, PlanOf().planId, o, boundary.version)
    {
      hide Reachable, Honest, OwnScope, Later, EvidenceContext, BodyRecorded, LookedAt;
      LaterSame(world);
      var context := EvidenceContext(PlanOf(), o, events);
      if context.Fail? {
        return Fail(context.refusal);
      }
      var observed := script.observe(tick, o, context.value);
      if observed.Fail? {
        return Fail(observed.refusal);
      }
      tick := tick + 1;
      var body := ObservationRecorded(Observed(
        o.operationId, Observation, None, observed.value.0, boundary.version, observed.value.1, script.now(tick)));
      r := AppendBody(body);
      if r.Ok? {
        LookIsRecorded(world, PlanOf().planId, o, boundary.version, body);
      }
    }

    /** What the provider saw on this prefix is on record, under its own version and the clock. */
    ghost predicate ObservationPut(asked: nat, o: Operation, boundary: ObservationBoundary, events: History)
      requires who.planId in config.plans
      reads this`world
    {
      var context := EvidenceContext(PlanOf(), o, events);
      && context.Ok? && script.observe(asked, o, context.value).Ok?
      && var (status, evidence) := script.observe(asked, o, context.value).value;
         BodyRecorded(world, PlanOf().planId, ObservationRecorded(Observed(
           o.operationId, Observation, None, status, boundary.version, evidence, script.now(asked + 1))))
    }

    // ---- Dispatch ----

    ghost predicate Launched(w: World, v: World, o: Operation, request: RequestFacts, e: Event)
      requires ValidActor(config, who)
    {
      && StartOf(HostOf(), PlanOf(), e, o) && e.body.start.request == request
      && WriteAdmits(HostOf(), PlanOf(), w.journal, e)
      && !HasStart(w.journal, e.body.start.dispatchId)
      && v.journal == w.journal + [e]
    }

    /** Nothing stands in the way of this operation's dispatch. */
    ghost predicate Poised(w: World, o: Operation, before: set<Text>)
      requires ValidActor(config, who)
    {
      && Orderly(HostOf(), PlanOf(), w.journal, before)
      && o in PlanOf().operations && o.operationId !in before && forall d :: d in o.dependsOn ==> d in before
    }

    ghost predicate RequestTaken(w: World, o: Operation, request: RequestFacts)
      requires ValidActor(config, who)
    {
      EvidenceContext(PlanOf(), o, w.journal).Ok? && Accepting(o, request, EvidenceContext(PlanOf(), o, w.journal).value)
    }

    /** The machine of this journal decides on this very dispatch, and takes it. */
    ghost predicate MachineAllows(e: Event)
      requires ValidActor(config, who) && e.body.DispatchStarted?
      reads this`world
    {
      var machine, s := SelectedMachine(HostOf(), PlanOf(), world.journal), e.body.start;
      && machine.Ok?
      && machine.value.next(s.operationId, Some(Candidate(s.request, s.fingerprint)), s.startedAt) == Ok(AppendDispatch(s.basis))
      && machine.value.append(e).Ok?
    }

    /** Admit the prefix again, decide, and build the dispatch under a fresh identity. */
    method DecideDispatch(o: Operation, request: RequestFacts, ghost before: set<Text>) returns (r: Result<bool>)
      requires Valid() && Pc().Idle?
      modifies this`world, this`tick
      ensures Valid() && Later(old(world), world)
      ensures if r == Ok(true) then Pc().Decided? && Pc().append.who == who && Starts(Pc().append.event, o, request) else Pc().Idle?
      ensures r == Ok(true) ==> Pc().append.revision == |world.journal| && MachineAllows(Pc().append.event)
      ensures Favoured() && Poised(old(world), o, before) && RequestTaken(old(world), o, request) ==>
        && r == Ok(true) && world.journal == old(world).journal
        && Pc().append.revision == |world.journal|
        && Launched(world, world.(journal := world.journal + [Pc().append.event]), o, request, Pc().append.event)
    {
      hide Reachable, Honest, ReadAdmits, WriteAdmits, SelectedMachine, OwnScope, Later, EvidenceContext, Orderly;
      var current := ReadJournal();
      if Favoured() && Poised(world, o, before) && RequestTaken(world, o, request) {
        PoisedReads(world, o, before);
      }
      if current.Fail? {
        return Fail(current.refusal);
      }
      var startedAt, fingerprint := script.now(tick), HostOf().fingerprint(request);
      tick := tick + 1;
      var next := current.value.machine.next(o.operationId, Some(Candidate(request, fingerprint)), startedAt);
      if Favoured() && Poised(world, o, before) {
        PoisedDecides(world, o, before, Some(Candidate(request, fingerprint)), startedAt);
      }
      if next.Fail? {
        return Fail(next.refusal);
      }
      if !next.value.AppendDispatch? {
        return Ok(false);
      }
      ghost var first := world;
      r := CommitToDispatch(current.value.machine, Started(
        o.operationId, script.uniqueId(world.created) + DISPATCH_SUFFIX, request, fingerprint, startedAt, next.value.basis), o, before);
      LaterTwice(old(world), first, world);
    }

    predicate Starts(e: Event, o: Operation, request: RequestFacts) {
      e.body.DispatchStarted? && e.body.start.operationId == o.operationId && e.body.start.request == request
    }

    /** The write-side checks on the decided dispatch. */
    method CommitToDispatch(machine: Machine, start: Started, o: Operation, ghost before: set<Text>) returns (r: Result<bool>)
      requires Valid() && Pc().Idle?
      requires ReadAdmits(HostOf(), PlanOf(), world.journal)
      requires SelectedMachine(HostOf(), PlanOf(), world.journal) == Ok(machine)
      requires start.dispatchId == script.uniqueId(world.created) + DISPATCH_SUFFIX
      requires start.fingerprint == HostOf().fingerprint(start.request) && start.operationId == o.operationId
      modifies this`world
      ensures Valid() && Later(old(world), world) && r != Ok(false)
      ensures if r == Ok(true) then Pc().Decided? && Pc().append.who == who && Pc().append.event.body == DispatchStarted(start) else Pc().Idle?
      ensures r == Ok(true) ==> world.journal == old(world).journal && Pc().append.revision == |world.journal|
                                && machine.append(Pc().append.event).Ok?
      ensures Favoured() && Poised(old(world), o, before) && RequestTaken(old(world), o, start.request)
              && start.basis == Initial && IsTime(start.startedAt) ==>
        && r == Ok(true) && world.journal == old(world).journal
        && Pc().append.revision == |world.journal|
        && Launched(world, world.(journal := world.journal + [Pc().append.event]), o, start.request, Pc().append.event)
    {
      hide Reachable, ReadAdmits, WriteAdmits, SelectedMachine, OwnScope, Later, EvidenceContext, Orderly;
      LaterSame(world);
      var eventId := script.uniqueId(world.created);
      var event := Event(eventId, JournalIdFor(HostOf(), PlanOf()), PlanOf().planId, DispatchStarted(start));
      FreshIsUnrecorded(config, world, eventId);
      ReadBindsJournal(HostOf(), PlanOf(), world.journal);
      if Favoured() && Poised(world, o, before) && RequestTaken(world, o, start.request)
         && start.basis == Initial && IsTime(start.startedAt)
      {
        PoisedIsAdmitted(world, o, before, event);
        WelcomeIsRead(world.journal, event);
      }
      var checked := VerifyWrite(HostOf(), PlanOf(), world.journal, event);
      if checked.Fail? {
        return Fail(checked.refusal);
      }
      var appended := machine.append(event);
      if appended.Fail? {
        return Fail(appended.refusal);
      }
      Take(Decide(me, who, event));
      r := Ok(true);
    }

    lemma LaterSame(w: World)
      ensures Later(w, w)
    {
    }

    lemma PoisedReads(w: World, o: Operation, before: set<Text>)
      requires ValidActor(config, who) && HostOf().machine.None? && Poised(w, o, before)
      ensures ReadAdmits(HostOf(), PlanOf(), w.journal)
      ensures SelectedMachine(HostOf(), PlanOf(), w.journal).Ok?
    {
      hide ReadAdmits, SelectedMachine, OwnScope;
      DefaultMachineReads(HostOf(), PlanOf(), w.journal, o.operationId, None, 0,
        Event(o.operationId, [], [], PlanSuperseded([])));
    }

    lemma PoisedDecides(w: World, o: Operation, before: set<Text>, candidate: Option<Candidate>, now: int)
      requires ValidActor(config, who) && HostOf().machine.None? && Poised(w, o, before)
      ensures SelectedMachine(HostOf(), PlanOf(), w.journal).Ok?
      ensures SelectedMachine(HostOf(), PlanOf(), w.journal).value.next(o.operationId, candidate, now)
           == Ok(if candidate.None? then PrepareDispatch else AppendDispatch(Initial))
    {
      hide ReadAdmits, SelectedMachine, OwnScope, FactsInOrder, DispatchDecision;
      ReadIsConfigured(HostOf(), PlanOf(), w.journal);
      LoadedPlan(HostOf(), PlanOf());
      ScopedAll(PlanOf(), w.journal);
      UnvisitedIsDecided(HostOf(), PlanOf(), w.journal, before, o, candidate, now);
      DefaultMachineReads(HostOf(), PlanOf(), w.journal, o.operationId, candidate, now,
        Event(o.operationId, [], [], PlanSuperseded([])));
    }

    lemma PoisedIsAdmitted(w: World, o: Operation, before: set<Text>, e: Event)
      requires ValidActor(config, who) && Poised(w, o, before)
      requires StartOf(HostOf(), PlanOf(), e, o) && RequestTaken(w, o, e.body.start.request)
      requires !HasEventId(w.journal, e.eventId) && !HasStart(w.journal, e.body.start.dispatchId)
      ensures ReadAdmits(HostOf(), PlanOf(), w.journal) && WriteAdmits(HostOf(), PlanOf(), w.journal, e)
    {
      hide ReadAdmits, WriteAdmits, OwnScope, FactsInOrder, EvidenceContext;
      StartIsAdmitted(HostOf(), PlanOf(), w.journal, before, o, e);
    }

    /** One send, under a permit that exists on this call stack only. A transport that reports a
        rejection with proof was really refused. */
    method SendRequest(o: Operation, request: RequestFacts) returns (result: SendResult)
      requires Valid() && Pc().Owner?
      modifies this`world, this`tick, this`dispatches, this`sent
      ensures Valid() && Later(old(world), world) && Pc() == Sent(old(Pc()).append)
      ensures dispatches == old(dispatches) + 1
      ensures sent == old(sent) + [(o.operationId, DispatchOf(old(Pc()).append.event))]
      ensures DispatchOf(old(Pc()).append.event) !in old(world).sends
      ensures DispatchOf(old(Pc()).append.event) in world.sends
      ensures result.RejectedBeforeCommit? ==> DispatchOf(old(Pc()).append.event) in world.refused
      ensures result == script.send(old(tick), request)
      ensures Favoured() ==> world.journal == old(world).journal
    {
      hide Reachable, Honest, ValidActor, Later, Recorded, Vetted, Favoured;
      PermitIsExclusive(config, world, me);
      var dispatchId := DispatchOf(Pc().append.event);
      Take(Send(me));
      ghost var first := world;
      SentLast(old(world), world, me);
      dispatches := dispatches + 1;
      sent := sent + [(o.operationId, dispatchId)];
      result := script.send(tick, request);
      tick := tick + 1;
      if result.RejectedBeforeCommit? {
        JustSentUncommitted(config, old(world), me);
        Take(Refuse(dispatchId));
      }
      LaterTwice(old(world), first, world);
      ghost var second := world;
      Others();
      LaterTwice(old(world), second, world);
      LaterKeepsSent(second, world, dispatchId);
    }

    /** What the result of a send records about its dispatch. */
    function OutcomeBody(
        o: Operation, provider: ProviderDefinition, request: RequestFacts, dispatchId: Text, result: SendResult, now: int)
      : Result<Body>
    {
      var decoded := if result.Accepted? then NativeEvidence(provider.receiptCodec, result.receipt) else Fail(InvalidData);
      if decoded.Ok? then
        Ok(ReceiptAccepted(Receipt(
          dispatchId, provider.receiptVersion, provider.classifyReceipt(o, request, decoded.value), result.receipt)))
      else if result.Accepted? then
        Ok(DispatchErrorOf(o, dispatchId, CORE_UNDECODABLE_RECEIPT, script.describe(request, result), now))
      else if result.RejectedBeforeCommit? && provider.rejection.Some? then
        Ok(DispatchRejectedBeforeCommit(Rejection(dispatchId, provider.rejection.value.version, result.proof)))
      else if result.Unknown? && result.nativeError.Some? then
        (match provider.dispatchError
         case None => Fail(UnknownErrorCodec)
         case Some(boundary) => Ok(DispatchErrorOf(o, dispatchId, boundary.version, result.nativeError.value, now)))
      else Ok(DispatchErrorOf(o, dispatchId, CORE_DISPATCH_ERROR, script.describe(request, result), now))
    }

    function DispatchErrorOf(o: Operation, dispatchId: Text, version: Text, evidence: Json, now: int): Body {
      ObservationRecorded(Observed(o.operationId, DispatchError, Some(dispatchId), Inconclusive, version, evidence, now))
    }

    /** Record the outcome of the send, whatever it was. */
    method Settle(o: Operation, provider: ProviderDefinition, request: RequestFacts, result: SendResult) returns (r: Result<()>)
      requires Valid() && Pc().Sent? && Pc().append.who == who
      requires result.RejectedBeforeCommit? ==> DispatchOf(Pc().append.event) in world.refused
      modifies this`world, this`tick
      ensures Valid() && Later(old(world), world) && Pc().Idle?
      ensures Favoured() && AcceptedBy(provider, o, request, result) && Awaited(old(world), old(Pc()).append.event, o, provider, request) ==>
        r.Ok? && Settled(old(world), world, old(Pc()).append.event, o)
      ensures var outcome := OutcomeBody(o, provider, request, DispatchOf(old(Pc()).append.event), result, script.now(old(tick)));
        && (outcome.Fail? ==> r == Fail(outcome.refusal))
        && (r.Ok? ==> outcome.Ok? && BodyRecorded(world, PlanOf().planId, outcome.value))
    {
      hide Reachable, Honest, Later, OwnScope, FactWelcome, Favoured, Awaited, Settled, OutcomeBody, AcceptedBy, OutcomeOf,
           BodyRecorded;
      var dispatchId, now := DispatchOf(Pc().append.event), script.now(tick);
      var body := OutcomeBody(o, provider, request, dispatchId, result, now);
      tick := tick + 1;
      if AcceptedBy(provider, o, request, result) {
        AcceptedOutcome(o, provider, request, dispatchId, result, now);
      }
      if body.Fail? {
        Take(Stop(me));
        return Fail(body.refusal);
      }
      OutcomeBelongs(world, o, provider, request, dispatchId, result, now);
      r := RecordOutcome(body.value, o, provider, request);
    }

    lemma OutcomeBelongs(
        w: World, o: Operation, provider: ProviderDefinition, request: RequestFacts, dispatchId: Text, result: SendResult, now: int)
      requires OutcomeBody(o, provider, request, dispatchId, result, now).Ok?
      requires result.RejectedBeforeCommit? ==> dispatchId in w.refused
      ensures OutcomeOf(w, dispatchId, OutcomeBody(o, provider, request, dispatchId, result, now).value)
      ensures !OutcomeBody(o, provider, request, dispatchId, result, now).value.DispatchStarted?
    {
    }

    /** A receipt is recorded exactly for an accepted answer that is its own exact native encoding, as the provider
        classifies it; a rejection exactly for a refused one that the provider has a proof for, with that proof. Every
        other result leaves an Inconclusive error of this dispatch, and only an error in a language the provider does
        not speak is refused. */
    lemma OutcomeMeans(
        o: Operation, provider: ProviderDefinition, request: RequestFacts, dispatchId: Text, result: SendResult, now: int)
      ensures var body := OutcomeBody(o, provider, request, dispatchId, result, now);
        && (forall r :: body == Ok(ReceiptAccepted(r)) <==>
              exists receipt ::
                && result.Accepted? && Encodes(provider.receiptCodec, result.receipt, receipt)
                && r == Receipt(dispatchId, provider.receiptVersion, provider.classifyReceipt(o, request, receipt), result.receipt))
        && (forall r :: body == Ok(DispatchRejectedBeforeCommit(r)) <==>
              && result.RejectedBeforeCommit? && provider.rejection.Some?
              && r == Rejection(dispatchId, provider.rejection.value.version, result.proof))
        && (body.Fail? <==> result.Unknown? && result.nativeError.Some? && provider.dispatchError.None?)
        && (body.Ok? && !body.value.ReceiptAccepted? && !body.value.DispatchRejectedBeforeCommit? ==>
              && body.value.ObservationRecorded?
              && var error := body.value.observation;
                && error.operationId == o.operationId && error.evidenceKind == DispatchError
                && error.dispatchId == Some(dispatchId) && error.status == Inconclusive && error.observedAt == now
                && (if result.Unknown? && result.nativeError.Some?
                    then error.evidenceVersion == provider.dispatchError.value.version && error.evidence == result.nativeError.value
                    else && error.evidence == script.describe(request, result)
                         && error.evidenceVersion == if result.Accepted? then CORE_UNDECODABLE_RECEIPT else CORE_DISPATCH_ERROR))
    {
      hide Encodes;
      if result.Accepted? {
        forall receipt ensures Encodes(provider.receiptCodec, result.receipt, receipt)
                          <==> NativeEvidence(provider.receiptCodec, result.receipt) == Ok(receipt) {
          EncodesMeans(provider.receiptCodec, result.receipt, receipt);
        }
      }
    }

    predicate SatisfiedReceipt(provider: ProviderDefinition, o: Operation, request: RequestFacts, dispatchId: Text, body: Body) {
      && body.ReceiptAccepted? && body.receipt.dispatchId == dispatchId
      && body.receipt.version == provider.receiptVersion && body.receipt.completion == Satisfied
      && AcceptedBy(provider, o, request, Accepted(body.receipt.value))
    }

    lemma AcceptedOutcome(
        o: Operation, provider: ProviderDefinition, request: RequestFacts, dispatchId: Text, result: SendResult, now: int)
      requires AcceptedBy(provider, o, request, result)
      ensures var body := OutcomeBody(o, provider, request, dispatchId, result, now);
        body.Ok? && SatisfiedReceipt(provider, o, request, dispatchId, body.value)
    {
    }

    method RecordOutcome(body: Body, o: Operation, provider: ProviderDefinition, request: RequestFacts) returns (r: Result<()>)
      requires Valid() && Pc().Sent? && Pc().append.who == who
      requires OutcomeOf(world, DispatchOf(Pc().append.event), body) && !body.DispatchStarted?
      modifies this`world, this`tick
      ensures Valid() && Later(old(world), world) && Pc().Idle?
      ensures Favoured() && SatisfiedReceipt(provider, o, request, DispatchOf(old(Pc()).append.event), body)
              && Awaited(old(world), old(Pc()).append.event, o, provider, request) ==>
        r.Ok? && Settled(old(world), world, old(Pc()).append.event, o)
      ensures r.Ok? ==> BodyRecorded(world, PlanOf().planId, body)
    {
      hide Reachable, Later, OwnScope, FactWelcome, Favoured, ReadAdmits, WriteAdmits, SatisfiedReceipt, Awaited, ReceiptFor, Honest;
      var fact := OutcomeFact(body);
      if SatisfiedReceipt(provider, o, request, DispatchOf(old(Pc()).append.event), body)
         && Awaited(old(world), old(Pc()).append.event, o, provider, request)
      {
        AwaitedIsWelcome(old(world), old(Pc()).append.event, o, provider, request, fact);
        WelcomeSameJournal(old(world), world, fact);
      }
      ghost var first := world;
      r := AppendFact(fact);
      LaterTwice(old(world), first, world);
      if r.Ok? { DoneIsRecorded(fact, PlanOf().planId); }
      ghost var second := world;
      Take(Stop(me));
      LaterTwice(old(world), second, world);
    }

    lemma WelcomeSameJournal(w: World, v: World, fact: Event)
      requires ValidActor(config, who) && FactWelcome(w, fact) && w.journal == v.journal
      ensures FactWelcome(v, fact)
    {
      hide ReadAdmits, WriteAdmits, OwnScope;
    }

    /** The fact of an outcome, under an identity of its own. */
    method OutcomeFact(body: Body) returns (fact: Event)
      requires Valid() && Pc().Sent? && Pc().append.who == who
      requires OutcomeOf(world, DispatchOf(Pc().append.event), body)
      modifies this`world
      ensures Valid() && Later(old(world), world) && Pc() == FactReady(fact, who, 0)
      ensures fact.planId == PlanOf().planId && fact.journalId == JournalIdFor(HostOf(), PlanOf()) && fact.body == body
      ensures world.journal == old(world).journal && !HasEventId(world.journal, fact.eventId)
    {
      hide Reachable, Later, Vetted, OwnScope, OutcomeOf, Recorded, Landed;
      fact := Event(script.uniqueId(world.created), JournalIdFor(HostOf(), PlanOf()), PlanOf().planId, body);
      FreshIsUnrecorded(config, world, fact.eventId);
      Take(Outcome(me, fact));
    }

    /** The start was just recorded after an orderly history. */
    ghost predicate Awaited(w: World, start: Event, o: Operation, provider: ProviderDefinition, request: RequestFacts)
      requires ValidActor(config, who)
    {
      && |w.journal| > 0
      && (exists before :: before <= OperationIds(PlanOf())
                           && Launching(w, start, o, before))
      && FindProvider(HostOf().providers, o.definitionId) == Some(provider)
      && start.body.DispatchStarted? && start.body.start.request == request
    }

    ghost predicate Launching(w: World, start: Event, o: Operation, before: set<Text>)
      requires ValidActor(config, who)
      requires |w.journal| > 0
    {
      var events := w.journal[..|w.journal| - 1];
      && w.journal == events + [start]
      && Orderly(HostOf(), PlanOf(), events, before) && o in PlanOf().operations && o.operationId !in before
      && StartOf(HostOf(), PlanOf(), start, o) && WriteAdmits(HostOf(), PlanOf(), events, start)
      && !HasStart(events, start.body.start.dispatchId)
    }

    ghost predicate Settled(w: World, v: World, start: Event, o: Operation)
      requires ValidActor(config, who)
    {
      && |v.journal| == |w.journal| + 1 && w.journal <= v.journal
      && ReceiptFor(HostOf(), PlanOf(), start, o, v.journal[|w.journal|])
      && WriteAdmits(HostOf(), PlanOf(), w.journal, v.journal[|w.journal|])
    }

    lemma AwaitedIsWelcome(w: World, start: Event, o: Operation, provider: ProviderDefinition, request: RequestFacts, fact: Event)
      requires ValidActor(config, who) && Awaited(w, start, o, provider, request)
      requires fact.planId == PlanOf().planId && fact.journalId == JournalIdFor(HostOf(), PlanOf())
      requires !HasEventId(w.journal, fact.eventId)
      requires SatisfiedReceipt(provider, o, request, DispatchOf(start), fact.body)
      ensures FactWelcome(w, fact) && WriteAdmits(HostOf(), PlanOf(), w.journal, fact)
      ensures ReceiptFor(HostOf(), PlanOf(), start, o, fact)
    {
      hide ReadAdmits, WriteAdmits, OwnScope, FactsInOrder;
      var events := w.journal[..|w.journal| - 1];
      var before :| before <= OperationIds(PlanOf()) && Launching(w, start, o, before);
      ReadBindsJournal(HostOf(), PlanOf(), events);
      ReceiptIsAdmitted(HostOf(), PlanOf(), events, before, o, start, fact);
      WriteKeepsJournalAdmitted(HostOf(), PlanOf(), events, start);
    }

    // ---- A visit ----

    /** Resolve credentials and artifacts before the uncertainty boundary. */
    method PrepareRequest(o: Operation, provider: ProviderDefinition, events: History) returns (r: Result<RequestFacts>)
      requires Valid() && o in PlanOf().operations && FindProvider(HostOf().providers, o.definitionId) == Some(provider)
      modifies this`tick
      ensures r.Ok? ==> EvidenceContext(PlanOf(), o, events).Ok?
                        && provider.requestCorresponds(o, r.value, EvidenceContext(PlanOf(), o, events).value)
                        && (exists t :: script.ready(t, r.value))
                        && r == script.prepare(old(tick), o, EvidenceContext(PlanOf(), o, events).value)
      ensures Favoured() && EvidenceContext(PlanOf(), o, events).Ok? ==>
        r.Ok? && Accepting(o, r.value, EvidenceContext(PlanOf(), o, events).value)
    {
      hide Reachable, Honest, OwnScope, EvidenceContext;
      var context := EvidenceContext(PlanOf(), o, events);
      if context.Fail? {
        return Fail(context.refusal);
      }
      if Favoured() {
        assert Prepared(tick, o, context.value);
      }
      var request := script.prepare(tick, o, context.value);
      tick := tick + 1;
      if request.Fail? {
        return request;
      }
      var corresponds := AssertRequestCorresponds(provider, o, request.value, context.value);
      if corresponds.Fail? {
        return Fail(corresponds.refusal);
      }
      r := if script.ready(tick, request.value) then request else Fail(TransportPreparation);
    }

    method Attempt(o: Operation, provider: ProviderDefinition, current: Host.Admission, ghost before: set<Text>)
      returns (r: Result<()>)
      requires Valid() && Pc().Idle?
      requires o in PlanOf().operations && FindProvider(HostOf().providers, o.definitionId) == Some(provider)
      requires current.snapshot.events == world.journal
      requires SelectedMachine(HostOf(), PlanOf(), world.journal) == Ok(current.machine)
      modifies this`world, this`tick, this`dispatches, this`sent
      ensures Valid() && Later(old(world), world) && Pc().Idle?
      ensures AtMostOneMore(old(sent), sent, o.operationId, old(world), world)
      ensures dispatches - old(dispatches) == |sent| - |old(sent)|
      ensures r.Ok? ==> forall i :: |old(sent)| <= i < |sent| ==> Accounted(world, PlanOf().planId, sent[i].1)
      ensures current.machine.next(o.operationId, None, script.now(old(tick))) != Ok(PrepareDispatch) ==>
        world == old(world) && sent == old(sent)
      ensures Favoured() && Poised(old(world), o, before) && before <= OperationIds(PlanOf()) ==>
        r.Ok? && dispatches == old(dispatches) + 1 && Orderly(HostOf(), PlanOf(), world.journal, before + {o.operationId})
    {
      hide Reachable, Honest, OwnScope, Favoured, Later, Orderly, EvidenceContext, SelectedMachine, Poised, Accepting, Accounted;
      LaterSame(world);
      var first := current.machine.next(o.operationId, None, script.now(tick));
      if Favoured() && Poised(world, o, before) {
        FavouredMachine();
        PoisedDecides(world, o, before, None, script.now(tick));
        PoisedHasContext(world, o, before);
      }
      tick := tick + 1;
      if first.Fail? {
        return Fail(first.refusal);
      }
      if !first.value.PrepareDispatch? {
        return Ok(());
      }
      var request := PrepareRequest(o, provider, current.snapshot.events);
      if request.Fail? {
        return Fail(request.refusal);
      }
      r := SendOnce(o, provider, request.value, before);
    }

    /** One candidate request, taken as far as the journal and the remote let it. */
    method SendOnce(o: Operation, provider: ProviderDefinition, request: RequestFacts, ghost before: set<Text>)
      returns (r: Result<()>)
      requires Valid() && Pc().Idle?
      requires o in PlanOf().operations && FindProvider(HostOf().providers, o.definitionId) == Some(provider)
      modifies this`world, this`tick, this`dispatches, this`sent
      ensures Valid() && Later(old(world), world) && Pc().Idle?
      ensures AtMostOneMore(old(sent), sent, o.operationId, old(world), world)
      ensures dispatches - old(dispatches) == |sent| - |old(sent)|
      ensures r.Ok? ==> forall i :: |old(sent)| <= i < |sent| ==> Accounted(world, PlanOf().planId, sent[i].1)
      ensures Favoured() && Poised(old(world), o, before) && before <= OperationIds(PlanOf())
              && RequestTaken(old(world), o, request) ==>
        r.Ok? && dispatches == old(dispatches) + 1 && Orderly(HostOf(), PlanOf(), world.journal, before + {o.operationId})
    {
      hide Reachable, Honest, OwnScope, Favoured, Later, Orderly, Poised, RequestTaken, Launched, Launching, AcceptedBy, Accounted;
      LaterSame(world);
      var owned := Launch(o, request, before);
      if owned.Fail? {
        return Fail(owned.refusal);
      }
      if !owned.value {
        return Ok(());
      }
      ghost var first := world;
      if Poised(old(world), o, before) && RequestTaken(old(world), o, request)
         && Launched(old(world), world, o, request, Pc().append.event)
      {
        LaunchedIsLaunching(old(world), world, o, provider, request, Pc().append.event, before);
      }
      r := Deliver(o, provider, request, before);
      LaterTwice(old(world), first, world);
      NotSentBefore(old(world), first);
    }

    lemma NotSentBefore(w: World, v: World)
      requires Later(w, v)
      ensures forall d :: d !in v.sends ==> d !in w.sends
    {
    }

    lemma LaunchedIsLaunching(
        w: World, v: World, o: Operation, provider: ProviderDefinition, request: RequestFacts, e: Event, before: set<Text>)
      requires ValidActor(config, who) && Poised(w, o, before) && RequestTaken(w, o, request)
      requires FindProvider(HostOf().providers, o.definitionId) == Some(provider)
      requires Launched(w, v, o, request, e)
      ensures |v.journal| > 0 && Launching(v, e, o, before)
      ensures forall t :: AcceptedBy(provider, o, request, script.send(t, request))
    {
      hide OwnScope, Orderly, WriteAdmits, EvidenceContext, AcceptedBy;
      assert v.journal[..|v.journal| - 1] == w.journal;
    }

    lemma FavouredMachine()
      requires ValidActor(config, who) && Favoured()
      ensures HostOf().machine.None?
    {
      hide OwnScope;
    }

    lemma PoisedHasContext(w: World, o: Operation, before: set<Text>)
      requires ValidActor(config, who) && Poised(w, o, before)
      ensures EvidenceContext(PlanOf(), o, w.journal).Ok?
    {
      hide ReadAdmits, OwnScope, FactsInOrder, EvidenceContext;
      ReadIsConfigured(HostOf(), PlanOf(), w.journal);
      LoadedPlan(HostOf(), PlanOf());
      ContextExists(PlanOf(), o, w.journal);
    }

    /** From the second read to an owned permit. */
    method Launch(o: Operation, request: RequestFacts, ghost before: set<Text>) returns (r: Result<bool>)
      requires Valid() && Pc().Idle?
      modifies this`world, this`tick
      ensures Valid() && Later(old(world), world)
      ensures if r == Ok(true) then Pc().Owner? && Pc().append.who == who && Starts(Pc().append.event, o, request) else Pc().Idle?
      ensures Favoured() && Poised(old(world), o, before) && RequestTaken(old(world), o, request) ==>
        r == Ok(true) && Launched(old(world), world, o, request, Pc().append.event)
    {
      hide Reachable, Honest, OwnScope, Favoured, Later, Poised, RequestTaken, WriteAdmits;
      var decided := DecideDispatch(o, request, before);
      if decided != Ok(true) {
        return decided;
      }
      ghost var first := world;
      ghost var answer;
      r, answer := AppendDecided();
      LaterTwice(old(world), first, world);
    }

    /** The send and the record of its outcome. */
    method Deliver(o: Operation, provider: ProviderDefinition, request: RequestFacts, ghost before: set<Text>)
      returns (r: Result<()>)
      requires Valid() && Pc().Owner? && Pc().append.who == who && Starts(Pc().append.event, o, request)
      requires FindProvider(HostOf().providers, o.definitionId) == Some(provider)
      modifies this`world, this`tick, this`dispatches, this`sent
      ensures Valid() && Later(old(world), world) && Pc().Idle?
      ensures exists d :: sent == old(sent) + [(o.operationId, d)] && d in world.sends && d !in old(world).sends
      ensures dispatches == old(dispatches) + 1
      ensures r.Ok? ==> Accounted(world, PlanOf().planId, sent[|old(sent)|].1)
      ensures Favoured() && |old(world).journal| > 0 && Launching(old(world), old(Pc()).append.event, o, before)
              && before <= OperationIds(PlanOf()) && (forall t :: AcceptedBy(provider, o, request, script.send(t, request))) ==>
        r.Ok? && Orderly(HostOf(), PlanOf(), world.journal, before + {o.operationId})
    {
      hide Reachable, Honest, OwnScope, Favoured, Later, Launching, Orderly, AcceptedBy, Accounted, OutcomeBody, BodyRecorded;
      ghost var start := Pc().append.event;
      var result := SendRequest(o, request);
      ghost var first, asked := world, tick;
      if Favoured() && |first.journal| > 0 && Launching(old(world), start, o, before) && before <= OperationIds(PlanOf()) {
        SameLaunching(old(world), first, start, o, before);
      }
      r := Settle(o, provider, request, result);
      LaterTwice(old(world), first, world);
      LaterKeepsSent(first, world, DispatchOf(start));
      if r.Ok? {
        SettledIsAccounted(o, provider, request, DispatchOf(start), result, script.now(asked));
      }
      if Favoured() && |first.journal| > 0 && Launching(first, start, o, before) && before <= OperationIds(PlanOf())
         && AcceptedBy(provider, o, request, result)
      {
        assert Awaited(first, start, o, provider, request);
        SettledIsOrderly(first, world, start, o, before);
      }
    }

    lemma SettledIsAccounted(
        o: Operation, provider: ProviderDefinition, request: RequestFacts, dispatchId: Text, result: SendResult, now: int)
      requires ValidActor(config, who) && OutcomeBody(o, provider, request, dispatchId, result, now).Ok?
      requires BodyRecorded(world, PlanOf().planId, OutcomeBody(o, provider, request, dispatchId, result, now).value)
      ensures Accounted(world, PlanOf().planId, dispatchId)
    {
      hide OwnScope, BodyRecorded, Accounted;
      OutcomeIsAccounted(world, PlanOf().planId, dispatchId, OutcomeBody(o, provider, request, dispatchId, result, now).value);
    }

    lemma SameLaunching(w: World, v: World, start: Event, o: Operation, before: set<Text>)
      requires ValidActor(config, who) && |w.journal| > 0 && v.journal == w.journal && Launching(w, start, o, before)
      ensures Launching(v, start, o, before)
    {
      hide OwnScope, Orderly, WriteAdmits;
    }

    lemma SettledIsOrderly(w: World, v: World, start: Event, o: Operation, before: set<Text>)
      requires ValidActor(config, who) && |w.journal| > 0 && Launching(w, start, o, before)
      requires Settled(w, v, start, o)
      ensures Orderly(HostOf(), PlanOf(), v.journal, before + {o.operationId})
    {
      hide OwnScope, Orderly, WriteAdmits, ReceiptFor;
      var events := w.journal[..|w.journal| - 1];
      assert v.journal == events + [start] + [v.journal[|w.journal|]];
      VisitIsOrderly(HostOf(), PlanOf(), events, before, o, start, v.journal[|w.journal|]);
    }

    // ---- The loop over operations ----

    /** `options.maxDispatches ?? plan.operations.length`. */
    function Limit(): int
      requires who.planId in config.plans
    {
      match options.maxDispatches case Some(n) => n case None => |PlanOf().operations|
    }

    ghost predicate Counted()
      requires who.planId in config.plans
      reads this
    {
      Tally(PlanOf(), options.authorize, Limit(), visits, visited, sent, dispatches, world)
    }

    /** Every visit since this world was made in order, and every send is accounted for. */
    ghost predicate Accounts(first: World)
      requires ValidActor(config, who)
      reads this
    {
      Ledger(HostOf(), PlanOf(), options.observe, first, visited, sent, world)
    }

    /** The options ask for everything. */
    ghost predicate Willing()
      requires who.planId in config.plans
    {
      options.authorize && !options.observe && Limit() >= |PlanOf().operations|
    }

    ghost predicate OnTrack()
      requires ValidActor(config, who)
      reads this`world, this`visited, this`dispatches
    {
      Orderly(HostOf(), PlanOf(), world.journal, visited) && dispatches == |visited| && visited <= OperationIds(PlanOf())
    }

    /** Record what the provider sees now, and admit the journal again. */
    method Look(o: Operation, boundary: ObservationBoundary, first: Host.Admission) returns (r: Result<Host.Admission>)
      requires Valid() && Pc().Idle?
      modifies this`world, this`tick
      ensures Valid() && Later(old(world), world) && Pc().Idle?
      ensures r.Ok? ==> LookedAt(world, PlanOf().planId, o, boundary.version)
      ensures r.Ok? ==> r.value.snapshot.events == world.journal
                        && SelectedMachine(HostOf(), PlanOf(), world.journal) == Ok(r.value.machine)
    {
      hide Reachable, Honest, OwnScope, Favoured, Later, SelectedMachine, LookedAt, ReadAdmits;
      var observed := RecordObservation(o, boundary, first.snapshot.events);
      if observed.Fail? {
        return Fail(observed.refusal);
      }
      ghost var middle := world;
      r := ReadJournal();
      LaterTwice(old(world), middle, world);
      LookedAtLater(middle, world, PlanOf().planId, o, boundary.version);
    }

    method Visit(o: Operation, first: Host.Admission, ghost before: set<Text>) returns (r: Result<()>)
      requires Valid() && Pc().Idle? && o in PlanOf().operations
      requires first.snapshot.events == world.journal
      requires SelectedMachine(HostOf(), PlanOf(), world.journal) == Ok(first.machine)
      modifies this`world, this`tick, this`dispatches, this`sent
      ensures Valid() && Later(old(world), world) && Pc().Idle?
      ensures AtMostOneMore(old(sent), sent, o.operationId, old(world), world)
      ensures dispatches - old(dispatches) == |sent| - |old(sent)|
      ensures r.Ok? ==> forall i :: |old(sent)| <= i < |sent| ==> Accounted(world, PlanOf().planId, sent[i].1)
      ensures dispatches > old(dispatches) ==> options.authorize && old(dispatches) < Limit()
      ensures r.Ok? ==> var provider := FindProvider(HostOf().providers, o.definitionId);
        && provider.Some?
        && (options.observe && provider.value.observation.Some? ==>
              LookedAt(world, PlanOf().planId, o, provider.value.observation.value.version))
      ensures Favoured() && Willing() && Poised(old(world), o, before) && before <= OperationIds(PlanOf())
              && old(dispatches) < |PlanOf().operations| ==>
        r.Ok? && dispatches == old(dispatches) + 1 && Orderly(HostOf(), PlanOf(), world.journal, before + {o.operationId})
    {
      hide Reachable, Honest, OwnScope, Favoured, Later, Orderly, SelectedMachine, Poised, Accounted, LookedAt;
      LaterSame(world);
      var provider := FindProvider(HostOf().providers, o.definitionId);
      if provider.None? {
        if Poised(world, o, before) {
          PoisedHasProvider(world, o, before);
        }
        return Fail(InvalidData);
      }
      var current := first;
      if options.observe && provider.value.observation.Some? {
        var looked := Look(o, provider.value.observation.value, first);
        if looked.Fail? {
          return Fail(looked.refusal);
        }
        current := looked.value;
      }
      if !options.authorize || dispatches >= Limit() {
        return Ok(());
      }
      ghost var middle := world;
      r := Attempt(o, provider.value, current, before);
      LaterTwice(old(world), middle, world);
      NotSentBefore(old(world), middle);
      if options.observe && provider.value.observation.Some? {
        LookedAtLater(middle, world, PlanOf().planId, o, provider.value.observation.value.version);
      }
    }

    lemma PoisedHasProvider(w: World, o: Operation, before: set<Text>)
      requires ValidActor(config, who) && Poised(w, o, before)
      ensures FindProvider(HostOf().providers, o.definitionId).Some?
    {
      hide ReadAdmits, OwnScope, FactsInOrder;
      ReadIsConfigured(HostOf(), PlanOf(), w.journal);
      LoadedPlan(HostOf(), PlanOf());
    }

    /** `operation.dependsOn.some(...)`: is some dependency not Satisfied? */
    method Blocked(machine: Machine, o: Operation) returns (blocked: bool)
      ensures blocked <==> exists i :: 0 <= i < |o.dependsOn| && machine.statusOf(o.dependsOn[i]) != Satisfied
    {
      for k := 0 to |o.dependsOn|
        invariant forall i :: 0 <= i < k ==> machine.statusOf(o.dependsOn[i]) == Satisfied
      {
        if machine.statusOf(o.dependsOn[k]) != Satisfied {
          return true;
        }
      }
      blocked := false;
    }

    /** One operation of the inner loop: visited now, or left for a later pass. */
    method Step(o: Operation, ghost first: World) returns (r: Result<bool>)
      requires Valid() && Pc().Idle? && Counted()
      requires o in PlanOf().operations && o.operationId !in visited
      requires Later(first, world) && UniqueIds(PlanOf().operations)
      modifies this
      ensures Valid() && Later(old(world), world) && Pc().Idle? && Counted()
      ensures r.Ok? ==> visited == if r.value then old(visited) + {o.operationId} else old(visited)
      ensures r.Ok? && old(Accounts(first)) ==> Accounts(first)
      ensures r == Ok(false) ==> Judged(HostOf(), PlanOf(), o, first, world, true)
      ensures Favoured() && Willing() && old(OnTrack()) ==>
        r.Ok? && OnTrack() && ((forall d :: d in o.dependsOn ==> d in old(visited)) ==> r.value)
    {
      hide Reachable, Honest, OwnScope, Favoured, Later, OnTrack, SelectedMachine, Tally, ReadAdmits, Ledger, UniqueIds,
           Judges, Judged, Willing;
      LaterSame(world);
      if Favoured() && OnTrack() {
        TrackReads();
      }
      var current := ReadJournal();
      LaterTwice(first, old(world), world);
      LaterSame(world);
      if old(Accounts(first)) {
        LedgerLater(HostOf(), PlanOf(), options.observe, first, visited, sent, old(world), world);
      }
      TallyLater(PlanOf(), options.authorize, Limit(), visits, visited, sent, dispatches, old(world), world);
      if current.Fail? {
        return Fail(current.refusal);
      }
      var blocked := Blocked(current.value.machine, o);
      if Favoured() && OnTrack() {
        TrackBlocks(o);
      }
      JudgedNow(HostOf(), PlanOf(), o, first, world, current.value.machine, blocked);
      if blocked {
        return Ok(false);
      }
      ghost var middle := world;
      r := VisitNow(o, current.value, first);
      LaterTwice(old(world), middle, world);
    }

    /** `visited.add(operation.operationId)` and the visit. */
    method VisitNow(o: Operation, current: Host.Admission, ghost first: World) returns (r: Result<bool>)
      requires Valid() && Pc().Idle? && Counted()
      requires o in PlanOf().operations && o.operationId !in visited
      requires current.snapshot.events == world.journal
      requires SelectedMachine(HostOf(), PlanOf(), world.journal) == Ok(current.machine)
      requires Later(first, world) && UniqueIds(PlanOf().operations) && Judges(HostOf(), PlanOf(), o, world, false)
      modifies this
      ensures Valid() && Later(old(world), world) && Pc().Idle? && Counted() && (r.Ok? ==> r.value)
      ensures visited == old(visited) + {o.operationId}
      ensures r.Ok? && old(Accounts(first)) ==> Accounts(first)
      ensures Favoured() && Willing() && old(OnTrack()) && (forall d :: d in o.dependsOn ==> d in old(visited)) ==>
        r.Ok? && OnTrack()
    {
      hide Reachable, Honest, OwnScope, Favoured, Later, Orderly, SelectedMachine, Tally, Poised, AtMostOneMore, Ledger, UniqueIds,
           Judges, Judged, Accounted, LookedAt, WellVisited;
      ghost var before := visited;
      if OnTrack() && (forall d :: d in o.dependsOn ==> d in before) {
        TrackPoised(o);
        VisitedFewer(PlanOf(), before, o);
      }
      visited := visited + {o.operationId};
      visits := visits + [o.operationId];
      var done := Visit(o, current, before);
      TallyStep(PlanOf(), options.authorize, Limit(), old(visits), before, old(sent), old(dispatches), old(world),
                o, sent, dispatches, world);
      if done.Ok? && old(Accounts(first)) {
        VisitedInOrder(o, first, before, old(sent), old(world));
      }
      r := if done.Ok? then Ok(true) else Fail(done.refusal);
    }

    lemma VisitedInOrder(o: Operation, first: World, before: set<Text>, already: seq<(Text, Text)>, w: World)
      requires ValidActor(config, who) && Later(first, w) && Later(w, world) && Judges(HostOf(), PlanOf(), o, w, false)
      requires UniqueIds(PlanOf().operations) && o in PlanOf().operations && visited == before + {o.operationId}
      requires Ledger(HostOf(), PlanOf(), options.observe, first, before, already, w)
      requires AtMostOneMore(already, sent, o.operationId, w, world)
      requires forall i :: |already| <= i < |sent| ==> Accounted(world, PlanOf().planId, sent[i].1)
      requires var provider := FindProvider(HostOf().providers, o.definitionId);
        && provider.Some?
        && (options.observe && provider.value.observation.Some? ==>
              LookedAt(world, PlanOf().planId, o, provider.value.observation.value.version))
      ensures Accounts(first)
    {
      hide OwnScope, Later, Judges, LookedAt, Ledger, UniqueIds, Accounted, AtMostOneMore;
      OnlyMore(already, sent, o.operationId, w, world);
      assert WellVisited(HostOf(), PlanOf(), options.observe, o, first, world);
      LedgerStep(HostOf(), PlanOf(), options.observe, first, before, already, w, o, sent, world);
    }

    lemma TrackReads()
      requires ValidActor(config, who) && OnTrack() && Favoured()
      ensures IsTime(script.now(tick)) && ReadAdmits(HostOf(), PlanOf(), world.journal)
      ensures SelectedMachine(HostOf(), PlanOf(), world.journal).Ok?
    {
      hide ReadAdmits, SelectedMachine, OwnScope, FactsInOrder;
      DefaultMachineReads(HostOf(), PlanOf(), world.journal, [], None, 0, Event([], [], [], PlanSuperseded([])));
    }

    /** On track, a dependency is Satisfied exactly when it was visited. */
    lemma TrackBlocks(o: Operation)
      requires ValidActor(config, who) && OnTrack() && Favoured() && o in PlanOf().operations
      ensures SelectedMachine(HostOf(), PlanOf(), world.journal).Ok?
      ensures forall i :: 0 <= i < |o.dependsOn| ==>
        (SelectedMachine(HostOf(), PlanOf(), world.journal).value.statusOf(o.dependsOn[i]) == Satisfied
         <==> o.dependsOn[i] in visited)
    {
      hide ReadAdmits, SelectedMachine, OwnScope, FactsInOrder, Orderly;
      TrackReads();
      TrackGraph();
      forall i | 0 <= i < |o.dependsOn|
        ensures SelectedMachine(HostOf(), PlanOf(), world.journal).value.statusOf(o.dependsOn[i]) == Satisfied
           <==> o.dependsOn[i] in visited
      {
        TrackStatus(o, o.dependsOn[i]);
      }
    }

    lemma TrackGraph()
      requires ValidActor(config, who) && OnTrack()
      ensures ValidDag(PlanOf().operations) && Scoped(world.journal, PlanOf().planId) == world.journal
    {
      hide ReadAdmits, OwnScope, FactsInOrder;
      ReadIsConfigured(HostOf(), PlanOf(), world.journal);
      LoadedPlan(HostOf(), PlanOf());
      ScopedAll(PlanOf(), world.journal);
    }

    lemma TrackStatus(o: Operation, id: Text)
      requires ValidActor(config, who) && OnTrack() && Favoured()
      requires o in PlanOf().operations && (id in o.dependsOn || id == o.operationId)
      ensures SelectedMachine(HostOf(), PlanOf(), world.journal).Ok?
      ensures SelectedMachine(HostOf(), PlanOf(), world.journal).value.statusOf(id)
           == if id in visited then Satisfied else Unattempted
    {
      hide ReadAdmits, SelectedMachine, OwnScope, FactsInOrder;
      TrackGraph();
      var i :| 0 <= i < |PlanOf().operations| && PlanOf().operations[i] == o;
      assert Present(PlanOf().operations, id);
      SatisfiedIffVisited(HostOf(), PlanOf(), world.journal, visited, id);
      DefaultMachineReads(HostOf(), PlanOf(), world.journal, id, None, 0, Event(id, [], [], PlanSuperseded([])));
    }

    lemma TrackPoised(o: Operation)
      requires ValidActor(config, who) && OnTrack()
      requires o in PlanOf().operations && o.operationId !in visited && forall d :: d in o.dependsOn ==> d in visited
      ensures Poised(world, o, visited)
    {
      hide Orderly, OwnScope;
    }

    /** One pass over the plan's operations, in the plan's order. */
    method Pass(ghost first: World) returns (r: Result<bool>)
      requires Valid() && Pc().Idle? && Counted() && Later(first, world) && UniqueIds(PlanOf().operations)
      modifies this
      ensures Valid() && Later(old(world), world) && Pc().Idle? && Counted()
      ensures r.Ok? ==> old(visited) <= visited && (r.value <==> visited != old(visited))
      ensures r.Ok? && old(Accounts(first)) ==> Accounts(first)
      ensures r == Ok(false) ==> LeftBlocked(HostOf(), PlanOf(), first, visited, |PlanOf().operations|, world)
      ensures Favoured() && Willing() && old(OnTrack()) ==>
        r.Ok? && OnTrack() && Reached(old(visited), |PlanOf().operations|)
    {
      hide Reachable, Honest, OwnScope, Favoured, Later, OnTrack, Tally, Ledger, UniqueIds, Judged;
      LaterSame(world);
      var progressed := false;
      for k := 0 to |PlanOf().operations|
        invariant Valid() && Later(old(world), world) && Pc().Idle? && Counted()
        invariant old(visited) <= visited && (progressed <==> visited != old(visited))
        invariant Favoured() && Willing() && old(OnTrack()) ==> OnTrack() && Reached(old(visited), k)
        invariant old(Accounts(first)) ==> Accounts(first)
        invariant !progressed ==> LeftBlocked(HostOf(), PlanOf(), first, visited, k, world)
      {
        var o := PlanOf().operations[k];
        if o.operationId in visited {
          continue;
        }
        ghost var middle := world;
        LaterTwice(first, old(world), world);
        var stepped := Step(o, first);
        LaterTwice(old(world), middle, world);
        if !progressed && stepped == Ok(false) {
          LeftBlockedLater(HostOf(), PlanOf(), first, visited, k, middle, world);
        }
        if stepped.Fail? {
          return stepped;
        }
        progressed := progressed || stepped.value;
      }
      r := Ok(progressed);
    }

    /** Every operation that was ready at the start of the pass has been visited, up to the k-th. */
    ghost predicate Reached(before: set<Text>, k: nat)
      requires who.planId in config.plans && k <= |PlanOf().operations|
      reads this`visited
    {
      forall i :: 0 <= i < k && (forall d :: d in PlanOf().operations[i].dependsOn ==> d in before) ==>
        PlanOf().operations[i].operationId in visited
    }

    /** A pass that visits nothing new was the last one needed. */
    lemma NothingLeft(o: Operation)
      requires ValidActor(config, who) && OnTrack() && Reached(visited, |PlanOf().operations|)
      requires o in PlanOf().operations
      ensures o.operationId in visited
    {
      hide Orderly, OwnScope;
      TrackGraph();
      if o.operationId !in visited {
        var ready := SomeOperationReady(PlanOf(), visited, o);
      }
    }

    /** Passes until every operation was visited or none could be. */
    method VisitAll(ghost first: World) returns (r: Result<()>)
      requires Valid() && Pc().Idle? && Counted() && Later(first, world) && UniqueIds(PlanOf().operations)
      modifies this
      ensures Valid() && Later(old(world), world) && Pc().Idle? && Counted()
      ensures r.Ok? && old(Accounts(first)) ==> Accounts(first)
      ensures r.Ok? ==> LeftBlocked(HostOf(), PlanOf(), first, visited, |PlanOf().operations|, world)
      ensures Favoured() && Willing() && old(OnTrack()) ==>
        r.Ok? && OnTrack() && forall o :: o in PlanOf().operations ==> o.operationId in visited
    {
      hide Reachable, Honest, OwnScope, Favoured, Later, OnTrack, Reached, Ledger, UniqueIds, Judged, Tally;
      LaterSame(world);
      var progressed := true;
      while |visited| < |PlanOf().operations| && progressed
        invariant Valid() && Later(old(world), world) && Pc().Idle? && Counted()
        invariant Favoured() && Willing() && old(OnTrack()) ==>
          OnTrack() && (!progressed ==> Reached(visited, |PlanOf().operations|))
        invariant old(Accounts(first)) ==> Accounts(first)
        invariant !progressed ==> LeftBlocked(HostOf(), PlanOf(), first, visited, |PlanOf().operations|, world)
        decreases |PlanOf().operations| - |visited|, progressed
      {
        ghost var middle, before := world, visited;
        LaterTwice(first, old(world), world);
        CountedIds();
        var passed := Pass(first);
        LaterTwice(old(world), middle, world);
        if passed.Fail? {
          return Fail(passed.refusal);
        }
        progressed := passed.value;
        if progressed {
          SubsetSize(before, visited);
          Fewer(before, visited);
        }
      }
      CountedIds();
      if progressed {
        forall i | 0 <= i < |PlanOf().operations| ensures PlanOf().operations[i].operationId in visited {
          AllVisited(PlanOf(), visited, PlanOf().operations[i]);
        }
      }
      if Favoured() && Willing() && old(OnTrack()) {
        forall o | o in PlanOf().operations ensures o.operationId in visited {
          if progressed {
            AllVisited(PlanOf(), visited, o);
          } else {
            NothingLeft(o);
          }
        }
      }
      r := Ok(());
    }

    lemma CountedIds()
      requires ValidActor(config, who) && Counted()
      ensures visited <= OperationIds(PlanOf())
    {
      hide OwnScope;
    }

    /** The kernel's own report on the final journal, whatever machine was supplied: one entry per operation of the
        plan, in plan order, with the status and the counts that the recorded events of the plan give it. */
    ghost predicate Reports(report: ReleaseReport)
      requires ValidActor(config, who)
      reads this`world
    {
      var operations, scoped := PlanOf().operations, Scoped(world.journal, PlanOf().planId);
      && ReadAdmits(HostOf(), PlanOf(), world.journal)
      && report.planId == PlanOf().planId && report.revision == |world.journal|
      && (report.superseded <==> exists e :: e in scoped && e.body.PlanSuperseded?)
      && |report.operations| == |operations|
      && forall i :: 0 <= i < |operations| ==>
        && report.operations[i].operationId == operations[i].operationId
        && report.operations[i].status
           == OperationStatusIn(scoped, operations[i].operationId, ScopeKindFor(HostOf(), PlanOf().planId))
        && report.operations[i].dispatches == |FactsOf(scoped, operations[i].operationId).starts|
        && report.operations[i].receipts == |FactsOf(scoped, operations[i].operationId).receipts|
        && report.operations[i].observations == |FactsOf(scoped, operations[i].operationId).observations|
    }

    ghost predicate Finished(r: Result<ReleaseReport>)
      requires ValidActor(config, who)
      reads this
    {
      && r.Ok? && |r.value.operations| == |PlanOf().operations|
      && (forall i :: 0 <= i < |r.value.operations| ==> r.value.operations[i].status == Satisfied)
      && dispatches == |sent| == |PlanOf().operations|
      && (forall o :: o in PlanOf().operations ==> Done(FactsOf(world.journal, o.operationId)))
    }

    /** `runRelease`. Whatever the store, the transport and the other runners do, it stays a run of the
        protocol, visits and sends each operation at most once, and never sends without authority or
        beyond the limit. Alone, on an empty journal, with a store and a transport that always accept,
        it ends with every operation Satisfied after exactly one dispatch each, whatever the id order. */
    method RunRelease() returns (r: Result<ReleaseReport>)
      requires Valid() && Pc().Idle? && visited == {} && dispatches == 0 && visits == [] && sent == []
      modifies this
      ensures Valid() && Later(old(world), world) && Pc().Idle? && Counted()
      ensures !ValidOptions() ==> r == Fail(DispatchLimit) && world == old(world)
      ensures r.Ok? ==> Reports(r.value) && Accounts(old(world))
      ensures r.Ok? ==> LeftBlocked(HostOf(), PlanOf(), old(world), visited, |PlanOf().operations|, world)
      ensures Favoured() && Willing() && ValidOptions() && Unwritten(old(world)) ==> Finished(r)
    {
      hide Reachable, Honest, OwnScope, Favoured, Later, OnTrack, Finished, Reports, LeftBlocked, UniqueIds, Tally, Ledger,
           Unwritten, Willing, Loads, ReadAdmits;
      LaterSame(world);
      NothingDone();
      if !ValidOptions() {
        return Fail(DispatchLimit);
      }
      var admitted := Open();
      NothingDone();
      if admitted.Fail? {
        return Fail(admitted.refusal);
      }
      ghost var middle := world;
      var done := VisitAll(old(world));
      LaterTwice(old(world), middle, world);
      if done.Fail? {
        return Fail(done.refusal);
      }
      ghost var last := world;
      r := Report(old(world));
      LedgerLater(HostOf(), PlanOf(), options.observe, old(world), visited, sent, last, world);
      LeftBlockedLater(HostOf(), PlanOf(), old(world), visited, |PlanOf().operations|, last, world);
    }

    lemma NothingDone()
      requires ValidActor(config, who) && visited == {} && dispatches == 0 && visits == [] && sent == []
      ensures Counted() && forall first :: Accounts(first)
    {
      hide OwnScope;
    }

    /** The plan loads, and the journal is admitted before the first provider effect. */
    method Open() returns (r: Result<()>)
      requires Valid() && Pc().Idle? && visited == {} && dispatches == 0
      modifies this`world, this`tick
      ensures Valid() && Later(old(world), world) && Pc().Idle?
      ensures r.Ok? ==> Loads(HostOf().kernel, PlanOf(), HostOf().providers) && UniqueIds(PlanOf().operations)
      ensures r.Ok? ==> ReadAdmits(HostOf(), PlanOf(), world.journal)
      ensures Favoured() && Unwritten(old(world)) ==> r.Ok? && OnTrack()
    {
      hide Reachable, Honest, OwnScope, Favoured, Later, OnTrack, Loads, ReadAdmits, SelectedMachine;
      LaterSame(world);
      if Favoured() && Unwritten(world) {
        StartsOnTrack();
      }
      var loaded := LoadPlan(HostOf().kernel, PlanOf(), HostOf().providers);
      if loaded.Fail? {
        return Fail(loaded.refusal);
      }
      LoadedIds(HostOf().kernel, PlanOf(), HostOf().providers);
      var opening := ReadJournal();
      r := if opening.Fail? then Fail(opening.refusal) else Ok(());
    }

    predicate ValidOptions() {
      options.maxDispatches.None? || 0 <= options.maxDispatches.value <= MAX_SAFE
    }

    /** Nothing recorded yet, and no historical plan that would have to be. */
    ghost predicate Unwritten(w: World)
      requires ValidActor(config, who)
    {
      w.journal == [] && Configured(HostOf(), PlanOf()) && PriorsOf(HostOf()) == []
    }

    /** `read(host, plan).report()`. */
    method Report(ghost first: World) returns (r: Result<ReleaseReport>)
      requires Valid() && Pc().Idle? && Counted() && Later(first, world)
      modifies this`world, this`tick
      ensures Valid() && Later(first, world) && Later(old(world), world) && Pc().Idle? && Counted()
      ensures r.Ok? ==> Reports(r.value)
      ensures Favoured() && old(OnTrack()) && (forall o :: o in PlanOf().operations ==> o.operationId in visited) ==>
        Finished(r)
    {
      hide Reachable, Honest, OwnScope, Favoured, Later, OnTrack, Tally, SelectedMachine, ReadAdmits, Finished, Reports;
      if Favoured() && OnTrack() {
        TrackReads();
      }
      ghost var middle := world;
      var final := ReadJournal();
      LaterTwice(first, middle, world);
      TallyLater(PlanOf(), options.authorize, Limit(), visits, visited, sent, dispatches, middle, world);
      if final.Fail? {
        return Fail(final.refusal);
      }
      var events := final.value.snapshot.events;
      r := Ok(ProjectReport(PlanOf(), Scoped(events, PlanOf().planId), ScopeKindFor(HostOf(), PlanOf().planId))
              .(revision := final.value.snapshot.revision));
      KernelReports(r.value);
      if Favoured() && OnTrack() && (forall o :: o in PlanOf().operations ==> o.operationId in visited) {
        ReportFinishes(r);
      }
    }

    lemma KernelReports(report: ReleaseReport)
      requires ValidActor(config, who) && ReadAdmits(HostOf(), PlanOf(), world.journal)
      requires report == ProjectReport(PlanOf(), Scoped(world.journal, PlanOf().planId), ScopeKindFor(HostOf(), PlanOf().planId))
                         .(revision := |world.journal|)
      ensures Reports(report)
    {
      hide ReadAdmits, OwnScope, OperationStatusIn, ScopeKindFor, FactsOf;
      var scoped := Scoped(world.journal, PlanOf().planId);
      if e :| e in scoped && e.body.PlanSuperseded? {
        var i :| 0 <= i < |scoped| && scoped[i] == e;
      }
      if SupersededIn(scoped) {
        var i :| 0 <= i < |scoped| && scoped[i].body.PlanSuperseded?;
        assert scoped[i] in scoped;
      }
    }

    lemma ReportFinishes(r: Result<ReleaseReport>)
      requires ValidActor(config, who) && Favoured() && OnTrack() && dispatches == |sent|
      requires forall o :: o in PlanOf().operations ==> o.operationId in visited
      requires r.Ok? && Reports(r.value)
      ensures Finished(r)
    {
      hide Favoured, OwnScope, ReadAdmits, FactsOf;
      TrackGraph();
      UniqueIdsCount(PlanOf().operations);
      assert visited == OperationIds(PlanOf());
      forall i | 0 <= i < |PlanOf().operations| ensures r.value.operations[i].status == Satisfied {
        VisitedIsSatisfied(PlanOf().operations[i]);
      }
    }

    lemma VisitedIsSatisfied(o: Operation)
      requires ValidActor(config, who) && Favoured() && OnTrack() && o in PlanOf().operations && o.operationId in visited
      ensures OperationStatusIn(Scoped(world.journal, PlanOf().planId), o.operationId, ScopeKindFor(HostOf(), PlanOf().planId))
           == Satisfied
    {
      hide ReadAdmits, SelectedMachine, OwnScope, FactsInOrder;
      TrackStatus(o, o.operationId);
      DefaultMachineReads(HostOf(), PlanOf(), world.journal, o.operationId, None, 0, Event([], [], [], PlanSuperseded([])));
    }

    lemma StartsOnTrack()
      requires ValidActor(config, who) && Favoured() && Unwritten(world) && visited == {} && dispatches == 0
      ensures OnTrack() && Loads(HostOf().kernel, PlanOf(), HostOf().providers)
      ensures IsTime(script.now(tick)) && ReadAdmits(HostOf(), PlanOf(), world.journal)
      ensures SelectedMachine(HostOf(), PlanOf(), world.journal).Ok?
    {
      hide Loads, OwnScope, ReadAdmits, SelectedMachine;
      EmptyIsOrderly(HostOf(), PlanOf());
      LoadedPlan(HostOf(), PlanOf());
      TrackReads();
    }

    // ---- Decisions a host records ----

    /** A body recorded under an authority the host gave, and a last admitted read. */
    method RecordDecision(authorize: bool, body: Body) returns (r: Result<()>)
      requires Valid() && Pc().Idle? && (body.RiskAccepted? || body.PlanSuperseded?)
      modifies this`world, this`tick
      ensures Valid() && Later(old(world), world) && Pc().Idle?
      ensures !authorize ==> r == Fail(AuthorityRequired) && world == old(world)
      ensures r.Ok? ==> exists i :: 0 <= i < |Scoped(world.journal, PlanOf().planId)|
                                    && Scoped(world.journal, PlanOf().planId)[i].body == body
    {
      hide Reachable, Honest, OwnScope, Favoured, Later, ReadAdmits, SelectedMachine, Loads;
      LaterSame(world);
      if !authorize {
        return Fail(AuthorityRequired);
      }
      var loaded := LoadPlan(HostOf().kernel, PlanOf(), HostOf().providers);
      if loaded.Fail? {
        return Fail(loaded.refusal);
      }
      r := AppendBody(body);
      if r.Fail? {
        return r;
      }
      ghost var middle := world;
      var last := ReadJournal();
      LaterTwice(old(world), middle, world);
      BodyStays(middle, world, body, PlanOf().planId);
      r := if last.Fail? then Fail(last.refusal) else Ok(());
    }

    /** `supersedePlan`: without authority nothing happens; on success the plan is superseded for good. */
    method SupersedePlan(authorize: bool, reason: Text) returns (r: Result<()>)
      requires Valid() && Pc().Idle?
      modifies this`world, this`tick
      ensures Valid() && Later(old(world), world) && Pc().Idle?
      ensures !authorize ==> r == Fail(AuthorityRequired) && world == old(world)
      ensures r.Ok? ==> SupersededIn(Scoped(world.journal, PlanOf().planId))
      ensures r.Ok? ==> exists i :: 0 <= i < |Scoped(world.journal, PlanOf().planId)|
                                    && Scoped(world.journal, PlanOf().planId)[i].body == PlanSuperseded(reason)
    {
      hide Reachable, Honest, OwnScope, Later;
      r := RecordDecision(authorize, PlanSuperseded(reason));
    }

    /** `acceptRisk`. */
    method AcceptRisk(authorize: bool, decision: Risk) returns (r: Result<()>)
      requires Valid() && Pc().Idle?
      modifies this`world, this`tick
      ensures Valid() && Later(old(world), world) && Pc().Idle?
      ensures !authorize ==> r == Fail(AuthorityRequired) && world == old(world)
      ensures r.Ok? ==> HasDecision(Scoped(world.journal, PlanOf().planId), decision.decisionId)
      ensures r.Ok? ==> exists i :: 0 <= i < |Scoped(world.journal, PlanOf().planId)|
                                    && Scoped(world.journal, PlanOf().planId)[i].body == RiskAccepted(decision)
    {
      hide Reachable, Honest, OwnScope, Later;
      r := RecordDecision(authorize, RiskAccepted(decision));
    }
  }

  lemma BodyStays(w: World, v: World, body: Body, planId: Text)
    requires Later(w, v)
    requires BodyRecorded(w, planId, body)
    ensures exists i :: 0 <= i < |Scoped(v.journal, planId)| && Scoped(v.journal, planId)[i].body == body
  {
    var i :| 0 <= i < |w.journal| && w.journal[i].body == body && w.journal[i].planId == planId;
    assert v.journal[i] in Scoped(v.journal, planId);
    var j :| 0 <= j < |Scoped(v.journal, planId)| && Scoped(v.journal, planId)[j] == v.journal[i];
  }

  lemma Fewer(before: set<Text>, after: set<Text>)
    requires before <= after && before != after
    ensures |before| < |after|
  {
    assert after == before + (after - before);
  }

  lemma AllVisited(plan: Plan, visited: set<Text>, o: Operation)
    requires visited <= OperationIds(plan) && |visited| >= |plan.operations| && o in plan.operations
    ensures o.operationId in visited
  {
    if o.operationId !in visited {
      VisitedFewer(plan, visited, o);
    }
  }

  lemma VisitedFewer(plan: Plan, visited: set<Text>, o: Operation)
    requires visited <= OperationIds(plan) && o in plan.operations && o.operationId !in visited
    ensures |visited| < |plan.operations|
  {
    IdsAtMost(plan.operations);
    assert visited + {o.operationId} <= OperationIds(plan);
    SubsetSize(visited + {o.operationId}, OperationIds(plan));
  }

  lemma {:induction false} UniqueIdsCount(operations: seq<Operation>)
    requires UniqueIds(operations)
    ensures |set o | o in operations :: o.operationId| == |operations|
  {
    var ids := set o | o in operations :: o.operationId;
    if operations != [] {
      var rest := set o | o in operations[1..] :: o.operationId;
      UniqueIdsCount(operations[1..]);
      assert operations == [operations[0]] + operations[1..];
      assert ids == rest + {operations[0].operationId};
      assert operations[0].operationId !in rest;
    }
  }

  lemma {:induction false} IdsAtMost(operations: seq<Operation>)
    ensures |set o | o in operations :: o.operationId| <= |operations|
  {
    var ids := set o | o in operations :: o.operationId;
    if operations != [] {
      var rest := set o | o in operations[1..] :: o.operationId;
      IdsAtMost(operations[1..]);
      assert operations == [operations[0]] + operations[1..];
      assert ids == rest + {operations[0].operationId};
    }
  }

  // ---- The ledger of a run ----

  predicate IsOutcome(body: Body, d: Text) {
    match body
    case ReceiptAccepted(r) => r.dispatchId == d
    case DispatchRejectedBeforeCommit(r) => r.dispatchId == d
    case ObservationRecorded(o) => o.evidenceKind == DispatchError && o.dispatchId == Some(d)
    case _ => false
  }

  /** The outcome of a dispatch is on record. */
  ghost predicate Accounted(w: World, planId: Text, d: Text) {
    exists i :: 0 <= i < |w.journal| && w.journal[i].planId == planId && IsOutcome(w.journal[i].body, d)
  }

  predicate IsLookAt(body: Body, o: Operation, version: Text) {
    && body.ObservationRecorded? && body.observation.operationId == o.operationId
    && body.observation.evidenceKind == Observation && body.observation.evidenceVersion == version
  }

  /** A look at the operation, in its provider's version, is on record. */
  ghost predicate LookedAt(w: World, planId: Text, o: Operation, version: Text) {
    exists i :: 0 <= i < |w.journal| && w.journal[i].planId == planId && IsLookAt(w.journal[i].body, o, version)
  }

  /** The machine of this journal finds some dependency of the operation not Satisfied, or finds none. */
  ghost predicate Judges(host: HostShape, plan: Plan, o: Operation, w: World, blocked: bool) {
    var machine := SelectedMachine(host, plan, w.journal);
    machine.Ok? && (blocked <==> exists i :: 0 <= i < |o.dependsOn| && machine.value.statusOf(o.dependsOn[i]) != Satisfied)
  }

  /** It did so at some moment of the run. */
  ghost predicate Judged(host: HostShape, plan: Plan, o: Operation, first: World, w: World, blocked: bool) {
    exists u :: Later(first, u) && Later(u, w) && Judges(host, plan, o, u, blocked)
  }

  /** The visit came when all dependencies were Satisfied, and its look, if one was asked for, is on record. */
  ghost predicate WellVisited(host: HostShape, plan: Plan, observe: bool, o: Operation, first: World, w: World) {
    var provider := FindProvider(host.providers, o.definitionId);
    && Judged(host, plan, o, first, w, false) && provider.Some?
    && (observe && provider.value.observation.Some? ==>
          LookedAt(w, plan.planId, o, provider.value.observation.value.version))
  }

  /** Every visit was made in order, and the outcome of every send is on record. */
  ghost predicate Ledger(
    host: HostShape, plan: Plan, observe: bool, first: World, visited: set<Text>, sent: seq<(Text, Text)>, w: World)
  {
    && (forall o :: o in plan.operations && o.operationId in visited ==> WellVisited(host, plan, observe, o, first, w))
    && (forall i :: 0 <= i < |sent| ==> Accounted(w, plan.planId, sent[i].1))
  }

  lemma AccountedLater(w: World, v: World, planId: Text, d: Text)
    requires Later(w, v) && Accounted(w, planId, d)
    ensures Accounted(v, planId, d)
  {
    var i :| 0 <= i < |w.journal| && w.journal[i].planId == planId && IsOutcome(w.journal[i].body, d);
    assert v.journal[i] == w.journal[i];
  }

  lemma LookedAtLater(w: World, v: World, planId: Text, o: Operation, version: Text)
    requires Later(w, v) && LookedAt(w, planId, o, version)
    ensures LookedAt(v, planId, o, version)
  {
    var i :| 0 <= i < |w.journal| && w.journal[i].planId == planId && IsLookAt(w.journal[i].body, o, version);
    assert v.journal[i] == w.journal[i];
  }

  lemma JudgedNow(host: HostShape, plan: Plan, o: Operation, first: World, w: World, machine: Machine, blocked: bool)
    requires Later(first, w) && Later(w, w) && SelectedMachine(host, plan, w.journal) == Ok(machine)
    requires blocked <==> exists i :: 0 <= i < |o.dependsOn| && machine.statusOf(o.dependsOn[i]) != Satisfied
    ensures Judges(host, plan, o, w, blocked) && Judged(host, plan, o, first, w, blocked)
  {
    hide Later, SelectedMachine;
  }

  lemma JudgedLater(host: HostShape, plan: Plan, o: Operation, first: World, w: World, v: World, blocked: bool)
    requires Later(w, v) && Judged(host, plan, o, first, w, blocked)
    ensures Judged(host, plan, o, first, v, blocked)
  {
    hide Later, Judges;
    var u :| Later(first, u) && Later(u, w) && Judges(host, plan, o, u, blocked);
    LaterTwice(u, w, v);
  }

  lemma LedgerLater(
      host: HostShape, plan: Plan, observe: bool, first: World, visited: set<Text>, sent: seq<(Text, Text)>, w: World, v: World)
    requires Later(w, v) && Ledger(host, plan, observe, first, visited, sent, w)
    ensures Ledger(host, plan, observe, first, visited, sent, v)
  {
    hide Later, Judged, Accounted, LookedAt;
    forall o | o in plan.operations && o.operationId in visited ensures WellVisited(host, plan, observe, o, first, v) {
      var provider := FindProvider(host.providers, o.definitionId);
      JudgedLater(host, plan, o, first, w, v, false);
      if observe && provider.value.observation.Some? {
        LookedAtLater(w, v, plan.planId, o, provider.value.observation.value.version);
      }
    }
    forall i | 0 <= i < |sent| ensures Accounted(v, plan.planId, sent[i].1) {
      AccountedLater(w, v, plan.planId, sent[i].1);
    }
  }

  /** One more visit keeps the ledger. */
  lemma LedgerStep(
      host: HostShape, plan: Plan, observe: bool, first: World, visited: set<Text>, sent: seq<(Text, Text)>, w: World,
      o: Operation, sent': seq<(Text, Text)>, v: World)
    requires Ledger(host, plan, observe, first, visited, sent, w) && Later(w, v)
    requires UniqueIds(plan.operations) && o in plan.operations && WellVisited(host, plan, observe, o, first, v)
    requires sent <= sent' && forall i :: |sent| <= i < |sent'| ==> Accounted(v, plan.planId, sent'[i].1)
    ensures Ledger(host, plan, observe, first, visited + {o.operationId}, sent', v)
  {
    hide Later, Accounted, WellVisited, UniqueIds;
    LedgerLater(host, plan, observe, first, visited, sent, w, v);
    forall p | p in plan.operations && p.operationId == o.operationId ensures p == o {
      SameIdSameOperation(plan.operations, p, o);
    }
  }

  lemma LoadedIds(kernel: Kernel, plan: Plan, providers: seq<ProviderDefinition>)
    requires Loads(kernel, plan, providers)
    ensures UniqueIds(plan.operations)
  {
    hide Rebuilds, OwnIdentities;
  }

  lemma SameIdSameOperation(operations: seq<Operation>, a: Operation, b: Operation)
    requires UniqueIds(operations) && a in operations && b in operations && a.operationId == b.operationId
    ensures a == b
  {
    var i :| 0 <= i < |operations| && operations[i] == a;
    var j :| 0 <= j < |operations| && operations[j] == b;
  }

  /** What is left over was found blocked by some dependency, up to the k-th operation. */
  ghost predicate LeftBlocked(host: HostShape, plan: Plan, first: World, visited: set<Text>, k: nat, w: World)
    requires k <= |plan.operations|
  {
    forall i :: 0 <= i < k ==>
      plan.operations[i].operationId in visited || Judged(host, plan, plan.operations[i], first, w, true)
  }

  lemma LeftBlockedLater(host: HostShape, plan: Plan, first: World, visited: set<Text>, k: nat, w: World, v: World)
    requires k <= |plan.operations| && Later(w, v) && LeftBlocked(host, plan, first, visited, k, w)
    ensures LeftBlocked(host, plan, first, visited, k, v)
  {
    hide Later, Judged;
    forall i | 0 <= i < k && plan.operations[i].operationId !in visited
      ensures Judged(host, plan, plan.operations[i], first, v, true)
    {
      JudgedLater(host, plan, plan.operations[i], first, w, v, true);
    }
  }

  lemma OutcomeIsAccounted(w: World, planId: Text, d: Text, body: Body)
    requires BodyRecorded(w, planId, body) && IsOutcome(body, d)
    ensures Accounted(w, planId, d)
  {
  }

  lemma LookIsRecorded(w: World, planId: Text, o: Operation, version: Text, body: Body)
    requires BodyRecorded(w, planId, body) && IsLookAt(body, o, version)
    ensures LookedAt(w, planId, o, version)
  {
  }

  // ---- The tally of a run ----

  /** What a run has done so far: each operation visited at most once, each sent at most once and only
      when visited, nothing without authority and nothing beyond the limit. */
  ghost predicate Tally(
    plan: Plan, authorize: bool, limit: int, visits: seq<Text>, visited: set<Text>, sent: seq<(Text, Text)>, n: nat, w: World)
  {
    && n == |sent|
    && (n > 0 ==> authorize && n <= limit)
    && (forall i, j :: 0 <= i < j < |sent| ==> sent[i].0 != sent[j].0 && sent[i].1 != sent[j].1)
    && (forall i :: 0 <= i < |sent| ==> sent[i].0 in visited && sent[i].1 in w.sends)
    && (forall i, j :: 0 <= i < j < |visits| ==> visits[i] != visits[j])
    && (forall id :: id in visits <==> id in visited)
    && visited <= OperationIds(plan)
  }

  lemma TallyLater(
      plan: Plan, authorize: bool, limit: int, visits: seq<Text>, visited: set<Text>, sent: seq<(Text, Text)>, n: nat,
      w: World, v: World)
    requires Tally(plan, authorize, limit, visits, visited, sent, n, w) && Later(w, v)
    ensures Tally(plan, authorize, limit, visits, visited, sent, n, v)
  {
  }

  /** At most one more send, of this operation, under a dispatch never sent before. */
  ghost predicate AtMostOneMore(s: seq<(Text, Text)>, t: seq<(Text, Text)>, id: Text, w: World, v: World) {
    t == s || exists d :: t == s + [(id, d)] && d in v.sends && d !in w.sends
  }

  lemma OnlyMore(s: seq<(Text, Text)>, t: seq<(Text, Text)>, id: Text, w: World, v: World)
    requires AtMostOneMore(s, t, id, w, v)
    ensures s <= t
  {
  }

  lemma TallyStep(
      plan: Plan, authorize: bool, limit: int, visits: seq<Text>, visited: set<Text>, sent: seq<(Text, Text)>, n: nat, w: World,
      o: Operation, sent': seq<(Text, Text)>, n': nat, v: World)
    requires Tally(plan, authorize, limit, visits, visited, sent, n, w) && Later(w, v)
    requires o in plan.operations && o.operationId !in visited
    requires AtMostOneMore(sent, sent', o.operationId, w, v)
    requires n' - n == |sent'| - |sent| && (n' > n ==> authorize && n < limit)
    ensures Tally(plan, authorize, limit, visits + [o.operationId], visited + {o.operationId}, sent', n', v)
  {
    var more := visits + [o.operationId];
    forall i, j | 0 <= i < j < |more| ensures more[i] != more[j] {
      if j == |visits| {
        assert visits[i] in visits;
      }
    }
    forall i, j | 0 <= i < j < |sent'| ensures sent'[i].0 != sent'[j].0 && sent'[i].1 != sent'[j].1 {
      assert sent'[i] == sent[i];
    }
  }

  lemma SentLast(w: World, v: World, r: nat)
    requires At(w, r).Owner? && v == Act(w, Send(r))
    ensures v.sends == w.sends + [DispatchOf(At(w, r).append.event)] && At(v, r) == Sent(At(w, r).append)
    ensures v.journal == w.journal && DispatchOf(At(w, r).append.event) in v.sends
  {
  }

  lemma LaterKeepsSent(w: World, v: World, d: Text)
    requires Later(w, v)
    ensures d in w.sends ==> d in v.sends
    ensures d in w.refused ==> d in v.refused
  {
  }

  /** A dispatch that was only just sent can still be refused. */
  lemma JustSentUncommitted(c: Config, w: World, r: nat)
    requires Reachable(c, w) && At(w, r).Owner?
    requires DispatchOf(At(w, r).append.event) !in w.sends
    ensures Enabled(c, Act(w, Send(r)), Refuse(DispatchOf(At(w, r).append.event)))
  {
    hide Reachable, Vetted;
    ReachableInv(c, w);
    var d, v := DispatchOf(At(w, r).append.event), Act(w, Send(r));
    assert v.sends[|w.sends|] == d;
    forall k | k in v.commits && k < |v.sends| ensures v.sends[k] != d {
      assert k < |w.sends| && v.sends[k] == w.sends[k];
    }
  }
}
