/** Any number of runners sharing one compare-and-swap journal and one remote, as a step relation.
    Runners may crash anywhere, lose the race for a revision, or see an ambiguous append land late. */
module Protocol {
  import opened Texts
  import opened ReleaseModel
  import opened Host
  import opened Admission

  /** Every host configuration that ever opens the journal, and the plan each identity names. */
  datatype Config = Config(hosts: seq<HostShape>, plans: map<Text, Plan>)

  /** The host and plan an invocation runs with. */
  datatype Actor = Actor(host: nat, planId: Text)

  ghost predicate ValidActor(c: Config, a: Actor) {
    && a.host < |c.hosts|
    && a.planId in c.plans
    && c.plans[a.planId].planId == a.planId
    && OwnScope(c.hosts[a.host], c.plans[a.planId])
  }

  /** An append that was issued. It may still land long after its caller has gone. */
  datatype Append = Append(revision: nat, event: Event, who: Actor)

  const MAX_TRIES := 8

  /** Where an invocation stands. A dispatch event lives on one call stack only. */
  datatype Runner =
    | Idle
    // the dispatch path of runRelease
    | Decided(append: Append)
    | Awaiting(append: Append)
    | Reconciling(append: Append)
    | Owner(append: Append)
    | Sent(append: Append)
    // appendFact
    | FactReady(fact: Event, who: Actor, tries: nat)
    | FactDecided(append: Append, tries: nat)
    | FactAwaiting(append: Append, tries: nat)
    | FactDone(fact: Event)
    | FactFailed(fact: Event)

  /** The journal with the writer of each event, every append ever issued, the runners, every
      event ever created, and the remote: what was sent, refused and committed. */
  datatype World = World(
    journal: History,
    writers: seq<Actor>,
    issued: set<Append>,
    runners: map<nat, Runner>,
    created: map<Text, Event>,
    sends: seq<Text>,
    refused: set<Text>,
    commits: set<nat>)

  const DISPATCH_SUFFIX: Text := [58, 100, 105, 115, 112, 97, 116, 99, 104]  // ":dispatch"

  /** The checks an invocation makes, on the snapshot it read, before it issues an append. */
  ghost predicate Vetted(c: Config, who: Actor, events: History, event: Event) {
    && ValidActor(c, who)
    && ReadAdmits(c.hosts[who.host], c.plans[who.planId], events)
    && WriteAdmits(c.hosts[who.host], c.plans[who.planId], events, event)
  }

  datatype Action =
    | Decide(r: nat, who: Actor, event: Event)
    | Issue(r: nat)
    | Land(append: Append)
    | Appended(r: nat)
    | NotAppended(r: nat)          // RevisionMismatch, or AlreadyRecorded: no permit
    | Ambiguous(r: nat)
    | Reconcile(r: nat)
    | Send(r: nat)
    | Commit(k: nat)
    | Refuse(dispatchId: Text)
    | Outcome(r: nat, fact: Event)
    | NewFact(r: nat, who: Actor, fact: Event)
    | FindFact(r: nat)
    | DecideFact(r: nat)
    | FactRecorded(r: nat)         // Appended or AlreadyRecorded
    | RetryFact(r: nat)            // RevisionMismatch or AmbiguousStorageOutcome
    | RejectFact(r: nat)           // refused by an admission check, or out of retries
    | Stop(r: nat)                 // returns, or crashes, at any point

  function At(w: World, r: nat): Runner {
    if r in w.runners then w.runners[r] else Idle
  }

  function Move(w: World, r: nat, runner: Runner): World {
    w.(runners := w.runners[r := runner])
  }

  function Create(w: World, event: Event): World {
    w.(created := w.created[event.eventId := event])
  }

  /** The append reached the journal as its own revision. */
  predicate Landed(w: World, a: Append) {
    a.revision < |w.journal| && w.journal[a.revision] == a.event
  }

  predicate Recorded(w: World, event: Event) {
    exists i :: 0 <= i < |w.journal| && w.journal[i] == event
  }

  /** The dispatch identity a start carries. */
  function DispatchOf(event: Event): Text {
    if event.body.DispatchStarted? then event.body.start.dispatchId else []
  }

  /** A dispatch event as runRelease builds it: fresh identity, dispatch identity derived from it. */
  predicate FreshDispatch(w: World, event: Event) {
    && event.body.DispatchStarted?
    && event.eventId !in w.created
    && DispatchOf(event) == event.eventId + DISPATCH_SUFFIX
  }

  /** What a transport result records about the dispatch it belongs to. A rejection is only
      recorded when the remote really refused: rejection proofs are sound. */
  predicate OutcomeOf(w: World, dispatchId: Text, body: Body) {
    match body
    case ReceiptAccepted(r) => r.dispatchId == dispatchId
    case DispatchRejectedBeforeCommit(r) => r.dispatchId == dispatchId && dispatchId in w.refused
    case ObservationRecorded(o) => o.dispatchId == Some(dispatchId)
    case _ => false
  }

  /** Is the action possible? */
  ghost predicate Enabled(c: Config, w: World, a: Action) {
    match a
    case Decide(r, who, event) =>
      At(w, r).Idle? && FreshDispatch(w, event) && Vetted(c, who, w.journal, event)
    case Issue(r) => At(w, r).Decided? || At(w, r).FactDecided?
    case Land(append) => append in w.issued && append.revision == |w.journal|
    case Appended(r) => At(w, r).Awaiting? && Landed(w, At(w, r).append)
    case NotAppended(r) => At(w, r).Awaiting?
    case Ambiguous(r) => At(w, r).Awaiting?
    case Reconcile(r) => At(w, r).Reconciling?
    case Send(r) => At(w, r).Owner?
    case Commit(k) => k < |w.sends| && k !in w.commits && w.sends[k] !in w.refused
    case Refuse(d) => d in w.sends && forall k :: k in w.commits && k < |w.sends| ==> w.sends[k] != d
    case Outcome(r, fact) =>
      At(w, r).Sent? && fact.eventId !in w.created
      && OutcomeOf(w, DispatchOf(At(w, r).append.event), fact.body)
    case NewFact(r, who, fact) =>
      At(w, r).Idle? && fact.eventId !in w.created
      && (fact.body.ObservationRecorded? || fact.body.RiskAccepted? || fact.body.PlanSuperseded?)
    case FindFact(r) => At(w, r).FactReady? && At(w, r).tries < MAX_TRIES && Recorded(w, At(w, r).fact)
    case DecideFact(r) =>
      At(w, r).FactReady? && At(w, r).tries < MAX_TRIES && Vetted(c, At(w, r).who, w.journal, At(w, r).fact)
    case FactRecorded(r) => At(w, r).FactAwaiting? && Recorded(w, At(w, r).append.event)
    case RetryFact(r) => At(w, r).FactAwaiting?
    case RejectFact(r) => At(w, r).FactReady?
    case Stop(r) => true
  }

  function Act(w: World, a: Action): World {
    match a
    case Decide(r, who, event) => Move(Create(w, event), r, Decided(Append(|w.journal|, event, who)))
    case Issue(r) =>
      (match At(w, r)
       case Decided(append) => Move(w, r, Awaiting(append)).(issued := w.issued + {append})
       case FactDecided(append, tries) => Move(w, r, FactAwaiting(append, tries)).(issued := w.issued + {append})
       case _ => w)
    case Land(append) => w.(journal := w.journal + [append.event], writers := w.writers + [append.who])
    case Appended(r) => (match At(w, r) case Awaiting(append) => Move(w, r, Owner(append)) case _ => w)
    case NotAppended(r) => Move(w, r, Idle)
    case Ambiguous(r) => (match At(w, r) case Awaiting(append) => Move(w, r, Reconciling(append)) case _ => w)
    case Reconcile(r) =>
      (match At(w, r)
       case Reconciling(append) => Move(w, r, if Recorded(w, append.event) then Owner(append) else Idle)
       case _ => w)
    case Send(r) =>
      (match At(w, r)
       case Owner(append) => Move(w, r, Sent(append)).(sends := w.sends + [DispatchOf(append.event)])
       case _ => w)
    case Commit(k) => w.(commits := w.commits + {k})
    case Refuse(d) => w.(refused := w.refused + {d})
    case Outcome(r, fact) =>
      (match At(w, r) case Sent(append) => Move(Create(w, fact), r, FactReady(fact, append.who, 0)) case _ => w)
    case NewFact(r, who, fact) => Move(Create(w, fact), r, FactReady(fact, who, 0))
    case FindFact(r) => (match At(w, r) case FactReady(fact, _, _) => Move(w, r, FactDone(fact)) case _ => w)
    case DecideFact(r) =>
      (match At(w, r)
       case FactReady(fact, who, tries) => Move(w, r, FactDecided(Append(|w.journal|, fact, who), tries))
       case _ => w)
    case FactRecorded(r) =>
      (match At(w, r) case FactAwaiting(append, _) => Move(w, r, FactDone(append.event)) case _ => w)
    case RetryFact(r) =>
      (match At(w, r)
       case FactAwaiting(append, tries) =>
         Move(w, r, if tries + 1 < MAX_TRIES then FactReady(append.event, append.who, tries + 1) else FactFailed(append.event))
       case _ => w)
    case RejectFact(r) => (match At(w, r) case FactReady(fact, _, _) => Move(w, r, FactFailed(fact)) case _ => w)
    case Stop(r) => Move(w, r, Idle)
  }

  const EmptyWorld := World([], [], {}, map[], map[], [], {}, {})

  /** Where a sequence of actions leads, from the empty journal. */
  function After(actions: seq<Action>): World {
    if actions == [] then EmptyWorld
    else Act(After(actions[..|actions| - 1]), actions[|actions| - 1])
  }

  /** Every action was possible when it was taken. */
  ghost predicate Run(c: Config, actions: seq<Action>) {
    actions == [] ||
    (&& Run(c, actions[..|actions| - 1])
     && Enabled(c, After(actions[..|actions| - 1]), actions[|actions| - 1]))
  }

  ghost predicate Reachable(c: Config, w: World) {
    exists actions :: Run(c, actions) && After(actions) == w
  }

  lemma ReachableStep(c: Config, w: World, a: Action)
    requires Reachable(c, w) && Enabled(c, w, a)
    ensures Reachable(c, Act(w, a))
  {
    hide Enabled, Act;
    var actions :| Run(c, actions) && After(actions) == w;
    assert (actions + [a])[..|actions|] == actions;
    assert After(actions + [a]) == Act(w, a);
    assert Run(c, actions + [a]);
  }
}
