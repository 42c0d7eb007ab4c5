/** The guarantees of the shared journal, over every run of any number of racing, crashing runners. */
module ProtocolSafety {
  import opened Texts
  import opened ReleaseModel
  import opened Decision
  import opened HistoryLaws
  import opened RiskLaws
  import opened Journal
  import opened PlanIdentity
  import opened Host
  import opened Admission
  import opened Protocol
  import opened ProtocolInvariant

  lemma ReachableInv(c: Config, w: World)
    requires Reachable(c, w)
    ensures Inv(c, w)
  {
    var actions :| Run(c, actions) && After(actions) == w;
    InvAlways(c, actions);
  }

  // ---- Facts are recorded exactly once ----

  lemma RecordedOnce(c: Config, w: World)
    requires Inv(c, w)
    ensures DistinctEventIds(w.journal)
  {
    hide ReadAdmits, NativeVerdict, AssertJournalAppend, OneSelection, ValidActor;
    forall i, j | 0 <= i < j < |w.journal| ensures w.journal[i].eventId != w.journal[j].eventId {
      assert Vetted(c, w.writers[j], w.journal[..j], w.journal[j]);
      assert w.journal[..j][i] == w.journal[i];
    }
  }

  predicate FactOutcome(runner: Runner, fact: Event) {
    (runner.FactDone? || runner.FactFailed?) && runner.fact == fact
  }

  /** Whatever mix of lost races and ambiguous or late appends its retries met: when appendFact
      succeeds the journal holds exactly one event with that identity, and it is this event; when
      it fails the journal holds at most one, and nothing else under that identity. */
  lemma FactsRecordedExactlyOnce(c: Config, w: World, r: nat, fact: Event)
    requires Reachable(c, w) && FactOutcome(At(w, r), fact)
    ensures forall i, j :: 0 <= i < |w.journal| && 0 <= j < |w.journal|
              && w.journal[i].eventId == fact.eventId && w.journal[j].eventId == fact.eventId
              ==> i == j && w.journal[i] == fact
    ensures At(w, r).FactDone? ==> exists i :: 0 <= i < |w.journal| && w.journal[i] == fact
  {
    hide Vetted, Reachable, IssuedInv, CreatedInv, OwnershipInv, RemoteInv, SentKnown, AppendOk;
    ReachableInv(c, w);
    RecordedOnce(c, w);
    assert RunnerOk(c, w, At(w, r));
    forall i | 0 <= i < |w.journal| && w.journal[i].eventId == fact.eventId ensures w.journal[i] == fact {
      assert Known(w, w.journal[i]);
    }
  }

  // ---- The journal is lawful, plan by plan ----

  lemma VettedAt(c: Config, w: World, j: nat)
    requires Inv(c, w) && j < |w.journal|
    ensures j < |w.writers| && Vetted(c, w.writers[j], w.journal[..j], w.journal[j])
  {
    hide Vetted;
  }

  lemma VettedIsAdmissible(c: Config, who: Actor, events: History, event: Event)
    requires Vetted(c, who, events, event)
    ensures who.planId in c.plans && event.planId == who.planId == c.plans[who.planId].planId
    ensures Admissible(c.plans[who.planId], Scoped(events, who.planId), event)
  {
    hide ReadAdmits, NativeVerdict, AssertJournalAppend, OneSelection, OwnScope;
    var kind := ScopeKindFor(c.hosts[who.host], who.planId);
    assert AssertJournalAppend(c.plans[who.planId], Scoped(events, who.planId), event, kind).Ok?;
    assert kind == PublicationScope || kind == PreparationScope;
  }

  lemma {:induction false} EachPlanLawful(c: Config, w: World, n: nat, planId: Text)
    requires Inv(c, w) && n <= |w.journal| && planId in c.plans && c.plans[planId].planId == planId
    ensures Lawful(c.plans[planId], Scoped(w.journal[..n], planId))
    decreases n
  {
    hide Inv, Vetted, Admissible;
    if n > 0 {
      EachPlanLawful(c, w, n - 1, planId);
      var prior, event := w.journal[..n - 1], w.journal[n - 1];
      assert w.journal[..n] == prior + [event];
      VettedAt(c, w, n - 1);
      VettedIsAdmissible(c, w.writers[n - 1], prior, event);
      ScopedSnoc(prior, event, planId);
      if event.planId == planId {
        LawfulSnoc(c.plans[planId], Scoped(prior, planId), event);
      }
    }
  }

  lemma JournalLawful(c: Config, w: World, planId: Text)
    requires Inv(c, w) && planId in c.plans && c.plans[planId].planId == planId
    ensures Lawful(c.plans[planId], Scoped(w.journal, planId))
  {
    EachPlanLawful(c, w, |w.journal|, planId);
    assert w.journal[..|w.journal|] == w.journal;
  }

  // ---- Each dispatch is sent at most once, and only by the stack that recorded it ----

  /** A dispatch about to be sent is recorded, was never sent, and no other stack can send it. */
  lemma PermitIsExclusive(c: Config, w: World, r: nat)
    requires Reachable(c, w) && Enabled(c, w, Send(r))
    ensures Recorded(w, At(w, r).append.event)
    ensures DispatchOf(At(w, r).append.event) !in w.sends
    ensures forall s :: s != r && At(w, s).Owner? ==> At(w, s).append.event.eventId != At(w, r).append.event.eventId
  {
    hide Vetted, Reachable, JournalInv, IssuedInv, CreatedInv, RemoteInv, SentKnown;
    ReachableInv(c, w);
    assert RunnerOk(c, w, At(w, r));
    assert Held(w.runners[r]).Some?;
    forall s | s != r && At(w, s).Owner?
      ensures At(w, s).append.event.eventId != At(w, r).append.event.eventId
    {
      assert Held(w.runners[s]).Some?;
    }
  }

  /** Nothing is sent twice, and everything sent was recorded as started. */
  lemma SentAtMostOnce(c: Config, w: World, i: nat, j: nat)
    requires Reachable(c, w) && i < |w.sends| && j < |w.sends| && w.sends[i] == w.sends[j]
    ensures i == j
    ensures exists k :: 0 <= k < |w.journal| && w.journal[k].body.DispatchStarted?
                        && w.journal[k].body.start.dispatchId == w.sends[i]
  {
    ReachableInv(c, w);
    assert StartRecorded(w, w.sends[i]);
  }

  // ---- At most one commit ----

  /** The send belongs to a recorded start of this operation. */
  predicate SendOf(w: World, k: nat, planId: Text, operationId: Text) {
    k < |w.sends| && Dispatched(FactsOf(Scoped(w.journal, planId), operationId).starts, w.sends[k])
  }

  lemma RejectionWasRefused(c: Config, w: World, planId: Text, d: Text)
    requires Inv(c, w) && HasRejection(Scoped(w.journal, planId), d)
    ensures d in w.refused
  {
    hide Vetted;
    var scoped := Scoped(w.journal, planId);
    var i :| 0 <= i < |scoped| && scoped[i].body.DispatchRejectedBeforeCommit? && scoped[i].body.rejection.dispatchId == d;
    assert scoped[i] in w.journal;
    var j :| 0 <= j < |w.journal| && w.journal[j] == scoped[i];
    assert Known(w, w.journal[j]);
  }

  /** A committed send of an operation is one of its unresolved starts. */
  lemma CommittedIsUnresolved(c: Config, w: World, planId: Text, operationId: Text, k: nat) returns (s: Started)
    requires Inv(c, w) && planId in c.plans && c.plans[planId].planId == planId
    requires k in w.commits && SendOf(w, k, planId, operationId)
    ensures var f := FactsOf(Scoped(w.journal, planId), operationId);
      s in Unresolved(f.starts, f.rejected) && s.dispatchId == w.sends[k]
  {
    hide Vetted, Lawful;
    var scoped := Scoped(w.journal, planId);
    var f := FactsOf(scoped, operationId);
    JournalLawful(c, w, planId);
    LawfulFactsAgree(c.plans[planId], scoped, operationId);
    var i :| 0 <= i < |f.starts| && f.starts[i].dispatchId == w.sends[k];
    s := f.starts[i];
    assert s in f.starts;
    if s.dispatchId in f.rejected {
      RejectionWasRefused(c, w, planId, s.dispatchId);
    }
  }

  lemma InAtMostOne(starts: seq<Started>, s: Started, t: Started)
    requires |starts| <= 1 && s in starts && t in starts
    ensures s == t
  {
  }

  lemma SendInRange(w: World, k: nat, planId: Text, operationId: Text)
    requires SendOf(w, k, planId, operationId)
    ensures k < |w.sends|
  {
  }

  /** At-most-once commit. For an operation whose recorded requests are not core compare-and-swap
      and for which no risk was accepted, the remote commits at most one send, in every reachable
      world, whatever crashed, raced or landed late. */
  lemma AtMostOneCommit(c: Config, w: World, planId: Text, operationId: Text, k: nat, m: nat)
    requires Reachable(c, w) && planId in c.plans && c.plans[planId].planId == planId
    requires forall i :: 0 <= i < |Scoped(w.journal, planId)| && Scoped(w.journal, planId)[i].body.RiskAccepted?
               ==> Scoped(w.journal, planId)[i].body.risk.operationId != operationId
    requires forall s :: s in FactsOf(Scoped(w.journal, planId), operationId).starts ==> !CoreCas(s.request)
    requires k in w.commits && m in w.commits
    requires SendOf(w, k, planId, operationId) && SendOf(w, m, planId, operationId)
    ensures k == m
  {
    hide Vetted, Lawful, FactsOf, Reachable, Inv, SendOf;
    ReachableInv(c, w);
    var f := FactsOf(Scoped(w.journal, planId), operationId);
    JournalLawful(c, w, planId);
    AtMostOneUnresolved(c.plans[planId], Scoped(w.journal, planId), operationId);
    var s := CommittedIsUnresolved(c, w, planId, operationId, k);
    var t := CommittedIsUnresolved(c, w, planId, operationId, m);
    InAtMostOne(Unresolved(f.starts, f.rejected), s, t);
    SendInRange(w, k, planId, operationId);
    SendInRange(w, m, planId, operationId);
    SentAtMostOnce(c, w, k, m);
  }

  // ---- Mutual exclusion of publication plans ----

  /** Hosts agree on which plans publish. A host without a journal context publishes its plan. */
  ghost predicate TagsAgree(c: Config, tag: Text -> ScopeKind) {
    && (forall h, i :: 0 <= h < |c.hosts| && c.hosts[h].journal.Some? && 0 <= i < |c.hosts[h].journal.value.scopes|
          ==> c.hosts[h].journal.value.scopes[i].kind == tag(c.hosts[h].journal.value.scopes[i].plan.planId))
    && (forall h, planId :: 0 <= h < |c.hosts| && c.hosts[h].journal.None? && ValidActor(c, Actor(h, planId))
          ==> tag(planId) == PublicationScope)
  }

  ghost predicate PublicationStart(w: World, tag: Text -> ScopeKind, i: nat) {
    i < |w.journal| && w.journal[i].body.DispatchStarted? && tag(w.journal[i].planId) == PublicationScope
  }

  /** A host that is about to dispatch one publication sees no dispatch of another. */
  lemma OtherPublicationNotStarted(c: Config, tag: Text -> ScopeKind, who: Actor, events: History, event: Event, i: nat)
    requires TagsAgree(c, tag) && Vetted(c, who, events, event) && tag(event.planId) == PublicationScope
    requires i < |events| && events[i].body.DispatchStarted? && tag(events[i].planId) == PublicationScope
    ensures events[i].planId == event.planId
  {
    hide NativeVerdict, AssertJournalAppend, OneSelection, Loads, Admitted, FingerprintsMatch;
    var host, plan := c.hosts[who.host], c.plans[who.planId];
    var scopes, registrations := ScopesOf(host, plan), Registrations(host, plan);
    assert IsRegistered(registrations, events[i].planId);
    var k :| 0 <= k < |registrations| && registrations[k].plan.planId == events[i].planId;
    StartSurvivesScoping(events, i);
    assert ScopeAdmits(host, registrations[k], Scoped(events, registrations[k].plan.planId));
    assert !registrations[k].superseded;
    if k < |scopes| {
      var m :| 0 <= m < |scopes| && scopes[m].plan == plan;
      assert registrations[k].plan == scopes[k].plan;
      assert scopes[k].kind == PublicationScope && scopes[m].kind == PublicationScope by {
        if host.journal.None? {
          assert ValidActor(c, Actor(who.host, who.planId));
        }
      }
      assert OnePublication(scopes);
      assert k == m;
    } else {
      assert false;
    }
  }

  lemma StartSurvivesScoping(events: History, i: nat)
    requires i < |events| && events[i].body.DispatchStarted?
    ensures AnyStart(Scoped(events, events[i].planId))
  {
    var scoped := Scoped(events, events[i].planId);
    assert events[i] in scoped;
    var j :| 0 <= j < |scoped| && scoped[j] == events[i];
  }

  /** Across all runners sharing the journal, at most one publication plan ever dispatches. */
  lemma OnePublicationDispatches(c: Config, w: World, tag: Text -> ScopeKind, i: nat, j: nat)
    requires Reachable(c, w) && TagsAgree(c, tag)
    requires PublicationStart(w, tag, i) && PublicationStart(w, tag, j)
    ensures w.journal[i].planId == w.journal[j].planId
  {
    hide Vetted, TagsAgree;
    ReachableInv(c, w);
    if i < j {
      assert w.journal[..j][i] == w.journal[i];
      OtherPublicationNotStarted(c, tag, w.writers[j], w.journal[..j], w.journal[j], i);
    } else if j < i {
      assert w.journal[..i][j] == w.journal[j];
      OtherPublicationNotStarted(c, tag, w.writers[i], w.journal[..i], w.journal[i], j);
    }
  }

  /** Where more actions lead from a world. */
  function Follow(w: World, actions: seq<Action>): World {
    if actions == [] then w
    else Act(Follow(w, actions[..|actions| - 1]), actions[|actions| - 1])
  }

  /** Every one of them is possible when it is taken. */
  ghost predicate Continues(c: Config, w: World, actions: seq<Action>) {
    forall i :: 0 <= i < |actions| ==> Enabled(c, Follow(w, actions[..i]), actions[i])
  }

  lemma ContinuesPrior(c: Config, w: World, actions: seq<Action>)
    requires Continues(c, w, actions) && actions != []
    ensures var prior := actions[..|actions| - 1];
      Continues(c, w, prior) && Enabled(c, Follow(w, prior), actions[|actions| - 1])
  {
    hide Enabled, Follow;
    var prior := actions[..|actions| - 1];
    assert forall i :: 0 <= i < |prior| ==> prior[..i] == actions[..i];
  }

  lemma {:induction false} RunExtends(c: Config, w: World, actions: seq<Action>)
    requires Inv(c, w)
    requires Continues(c, w, actions)
    ensures w.journal <= Follow(w, actions).journal
  {
    if actions != [] {
      hide Enabled, Act, Inv, Continues;
      var prior := actions[..|actions| - 1];
      ContinuesPrior(c, w, actions);
      RunExtends(c, w, prior);
      ActExtends(c, Follow(w, prior), actions[|actions| - 1]);
    }
  }

  lemma {:induction false} FollowReachable(c: Config, w: World, actions: seq<Action>)
    requires Reachable(c, w)
    requires Continues(c, w, actions)
    ensures Reachable(c, Follow(w, actions))
  {
    if actions != [] {
      hide Enabled, Act, Reachable, Continues;
      var prior := actions[..|actions| - 1];
      ContinuesPrior(c, w, actions);
      FollowReachable(c, w, prior);
      ReachableStep(c, Follow(w, prior), actions[|actions| - 1]);
    }
  }

  lemma {:induction false} ScopedSplits(events: History, more: History, planId: Text)
    ensures Scoped(events + more, planId) == Scoped(events, planId) + Scoped(more, planId)
    decreases |more|
  {
    if more == [] {
      assert events + more == events;
    } else {
      assert (events + more)[..|events + more| - 1] == events + more[..|more| - 1];
      ScopedSplits(events, more[..|more| - 1], planId);
    }
  }

  /** "Superseded without any dispatch" is stable under every later step of everyone. */
  lemma SupersededStaysUndispatched(c: Config, w: World, actions: seq<Action>, planId: Text)
    requires Reachable(c, w) && planId in c.plans && c.plans[planId].planId == planId
    requires Continues(c, w, actions)
    requires SupersededIn(Scoped(w.journal, planId)) && !AnyStart(Scoped(w.journal, planId))
    ensures SupersededIn(Scoped(Follow(w, actions).journal, planId))
    ensures !AnyStart(Scoped(Follow(w, actions).journal, planId))
  {
    hide Continues, Act, Inv, Lawful, Reachable, SupersededIn;
    ReachableInv(c, w);
    RunExtends(c, w, actions);
    FollowReachable(c, w, actions);
    var v := Follow(w, actions);
    ReachableInv(c, v);
    var more := v.journal[|w.journal|..];
    assert v.journal == w.journal + more;
    ScopedSplits(w.journal, more, planId);
    JournalLawful(c, v, planId);
    SupersessionIsFinal(c.plans[planId], Scoped(w.journal, planId), Scoped(more, planId));
  }

  // ---- No run can wedge the journal ----

  /** The plan an append was made for is the reader's own, or the host keeps both in one journal context. */
  ghost predicate Shares(c: Config, h: nat, plan: Plan, who: Actor) {
    && h < |c.hosts| && who.host == h
    && (c.hosts[h].journal.Some? || (who.planId == plan.planId && who.planId in c.plans && c.plans[who.planId] == plan))
  }

  lemma OwnAppendKeepsAdmitted(c: Config, h: nat, who: Actor, plan: Plan, events: History, event: Event)
    requires Vetted(c, who, events, event) && Shares(c, h, plan, who)
    requires OwnScope(c.hosts[h], plan)
    ensures ReadAdmits(c.hosts[h], plan, events + [event])
  {
    hide ReadAdmits, WriteAdmits, OwnScope;
    WriteKeepsJournalAdmitted(c.hosts[h], c.plans[who.planId], events, event);
    if c.hosts[h].journal.Some? {
      ReadsAgree(c.hosts[h], c.plans[who.planId], plan, events + [event]);
    }
  }

  /** Once a host admits the journal, everything its own runners append keeps it admitted, on every
      prefix and for every plan the host registers, whatever decision machine was supplied. A host
      without a journal context knows one plan only, so there the runners are those of that plan. */
  lemma {:induction false} OwnRunsNeverWedge(c: Config, w: World, h: nat, plan: Plan, n: nat, m: nat)
    requires Reachable(c, w) && h < |c.hosts| && n <= m <= |w.journal| == |w.writers|
    requires ReadAdmits(c.hosts[h], plan, w.journal[..n]) && OwnScope(c.hosts[h], plan)
    requires forall j :: n <= j < |w.journal| ==> Shares(c, h, plan, w.writers[j])
    ensures ReadAdmits(c.hosts[h], plan, w.journal[..m])
    decreases m
  {
    hide ReadAdmits, Vetted, Reachable, Inv, OwnScope, Shares;
    if n < m {
      OwnRunsNeverWedge(c, w, h, plan, n, m - 1);
      ReachableInv(c, w);
      VettedAt(c, w, m - 1);
      OwnAppendKeepsAdmitted(c, h, w.writers[m - 1], plan, w.journal[..m - 1], w.journal[m - 1]);
      assert w.journal[..m] == w.journal[..m - 1] + [w.journal[m - 1]];
    }
  }

  /** The admission of the first event already admits the empty journal, so a journal written by
      runners of one host is readable from the start: on every prefix, for every plan it registers. */
  lemma OwnJournalIsReadable(c: Config, w: World, h: nat, plan: Plan, m: nat)
    requires Reachable(c, w) && h < |c.hosts| && OwnScope(c.hosts[h], plan)
    requires w.journal != [] && m <= |w.journal| == |w.writers|
    requires forall j :: 0 <= j < |w.journal| ==> Shares(c, h, plan, w.writers[j])
    ensures ReadAdmits(c.hosts[h], plan, w.journal[..m])
  {
    hide ReadAdmits, Reachable, Inv, OwnScope, WriteAdmits;
    ReachableInv(c, w);
    VettedAt(c, w, 0);
    assert w.journal[..0] == [];
    if c.hosts[h].journal.Some? {
      ReadsAgree(c.hosts[h], c.plans[w.writers[0].planId], plan, []);
    }
    OwnRunsNeverWedge(c, w, h, plan, 0, m);
  }

  // ---- Preparation agreement ----

  /** The kind of scope a writer works under is the tag of its plan. */
  lemma WriterKindIsTag(c: Config, tag: Text -> ScopeKind, who: Actor)
    requires TagsAgree(c, tag) && ValidActor(c, who)
    ensures ScopeKindFor(c.hosts[who.host], who.planId) == tag(who.planId)
  {
    var host, plan := c.hosts[who.host], c.plans[who.planId];
    if host.journal.Some? {
      var scopes := host.journal.value.scopes;
      var k :| 0 <= k < |ScopesOf(host, plan)| && ScopesOf(host, plan)[k].plan == plan;
      assert scopes[k] in scopes;
      var scope := FindScope(scopes, who.planId).value;
      var i :| 0 <= i < |scopes| && scopes[i] == scope;
    } else {
      assert ValidActor(c, Actor(who.host, who.planId));
    }
  }

  lemma VettedKeepsSelection(c: Config, tag: Text -> ScopeKind, who: Actor, events: History, event: Event)
    requires TagsAgree(c, tag) && Vetted(c, who, events, event) && tag(event.planId) == PreparationScope
    requires OneSelection(Scoped(events, event.planId))
    ensures OneSelection(Scoped(events, event.planId) + [event])
  {
    hide ReadAdmits, NativeVerdict, AssertJournalAppend, OneSelection, TagsAgree, ValidActor;
    WriterKindIsTag(c, tag, who) by { assert ValidActor(c, who); }
    assert event.planId == who.planId by { VettedIsAdmissible(c, who, events, event); }
    if event.body.DispatchStarted? {
      StartSelectsNothing(Scoped(events, event.planId), event);
    }
  }

  lemma {:induction false} EachPreparationSelectsOnce(c: Config, w: World, tag: Text -> ScopeKind, planId: Text, n: nat)
    requires Inv(c, w) && TagsAgree(c, tag) && tag(planId) == PreparationScope && n <= |w.journal|
    ensures OneSelection(Scoped(w.journal[..n], planId))
    decreases n
  {
    hide Inv, TagsAgree, Vetted, OneSelection;
    if n == 0 {
      NothingSelected();
    } else {
      EachPreparationSelectsOnce(c, w, tag, planId, n - 1);
      var prior, event := w.journal[..n - 1], w.journal[n - 1];
      assert w.journal[..n] == prior + [event];
      VettedAt(c, w, n - 1);
      ScopedSnoc(prior, event, planId);
      if event.planId == planId {
        VettedKeepsSelection(c, tag, w.writers[n - 1], prior, event);
      }
    }
  }

  lemma NothingSelected()
    ensures OneSelection([])
  {
  }

  /** An output belongs to an operation of the plan. */
  lemma OutputHasOperation(plan: Plan, events: History, i: nat, operationId: Text, a: Selection)
    requires Lawful(plan, events) && Selects(events, i, operationId, a)
    ensures FindOperation(plan.operations, operationId).Some?
  {
    hide FactsOf;
    LawfulAt(plan, events, i);
    if events[i].body.ReceiptAccepted? {
      var d := events[i].body.receipt.dispatchId;
      LastStartRecorded(events[..i], d);
      var k :| 0 <= k < i && events[..i][k].body == DispatchStarted(LastStart(events[..i], d).value);
      LawfulAt(plan, events, k);
    }
  }

  lemma {:induction false} LastStartRecorded(events: History, d: Text)
    requires LastStart(events, d).Some?
    ensures exists k :: 0 <= k < |events| && events[k].body == DispatchStarted(LastStart(events, d).value)
  {
    var prior, last := events[..|events| - 1], events[|events| - 1];
    if last.body == DispatchStarted(LastStart(events, d).value) {
      assert events[|events| - 1].body == DispatchStarted(LastStart(events, d).value);
    } else {
      LastStartRecorded(prior, d);
      var k :| 0 <= k < |prior| && prior[k].body == DispatchStarted(LastStart(prior, d).value);
      assert events[k] == prior[k];
    }
  }

  /** A plan that was recorded under as a preparation has exactly one operation. */
  lemma RecordedPreparationHasOne(c: Config, w: World, tag: Text -> ScopeKind, j: nat)
    requires Inv(c, w) && TagsAgree(c, tag) && j < |w.journal| && tag(w.journal[j].planId) == PreparationScope
    ensures w.journal[j].planId in c.plans && c.plans[w.journal[j].planId].planId == w.journal[j].planId
    ensures |c.plans[w.journal[j].planId].operations| == 1
  {
    hide Inv, TagsAgree, NativeVerdict, AssertJournalAppend, OneSelection, OwnScope, HistoryAdmitted, Configured;
    VettedAt(c, w, j);
    var who := w.writers[j];
    VettedIsAdmissible(c, who, w.journal[..j], w.journal[j]);
    WriterKindIsTag(c, tag, who);
    PreparationHasOne(c.hosts[who.host], c.plans[who.planId]);
  }

  /** In every reachable world a preparation has at most one Satisfied output: all of them, receipts and
      observations, of whichever runner, agree in channel, version and value. */
  lemma PreparationsAgree(c: Config, w: World, tag: Text -> ScopeKind, planId: Text,
                          i: nat, j: nat, first: Text, second: Text, a: Selection, b: Selection)
    requires Reachable(c, w) && TagsAgree(c, tag) && tag(planId) == PreparationScope
    requires Selects(Scoped(w.journal, planId), i, first, a)
    requires Selects(Scoped(w.journal, planId), j, second, b)
    ensures first == second && a == b
  {
    hide Inv, TagsAgree, Reachable, Lawful, Selects;
    ReachableInv(c, w);
    var scoped := Scoped(w.journal, planId);
    assert i < |scoped| by { SelectsInRange(scoped, i, first, a); }
    assert scoped[i] in w.journal && scoped[i].planId == planId;
    var k :| 0 <= k < |w.journal| && w.journal[k] == scoped[i];
    RecordedPreparationHasOne(c, w, tag, k);
    JournalLawful(c, w, planId);
    OutputHasOperation(c.plans[planId], scoped, i, first, a);
    OutputHasOperation(c.plans[planId], scoped, j, second, b);
    EachPreparationSelectsOnce(c, w, tag, planId, |w.journal|);
    assert w.journal[..|w.journal|] == w.journal;
  }

  lemma SelectsInRange(events: History, i: nat, operationId: Text, a: Selection)
    requires Selects(events, i, operationId, a)
    ensures i < |events|
  {
  }
}
