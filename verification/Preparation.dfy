/** Racing completions of one preparation: whoever records first selects the output for everyone. */
module Preparation {
  import opened Texts
  import opened JsonData
  import opened ReleaseModel
  import opened Decision
  import opened RiskLaws
  import opened Journal
  import opened Host
  import opened Admission
  import opened Protocol
  import opened ProtocolInvariant
  import opened ProtocolSafety
  import opened Release

  /** A Satisfied observation recorded for this plan. */
  predicate IsOutput(e: Event, planId: Text) {
    && e.planId == planId && e.body.ObservationRecorded?
    && e.body.observation.evidenceKind == Observation && e.body.observation.status == Satisfied
  }

  /** `selected`: the first one in the journal. */
  function SelectedOutput(events: History, planId: Text): (r: Option<Event>)
    ensures r.Some? ==> r.value in events && IsOutput(r.value, planId)
    ensures r.None? ==> forall e :: e in events ==> !IsOutput(e, planId)
  {
    if events == [] then None
    else
      assert events == [events[0]] + events[1..];
      if IsOutput(events[0], planId) then Some(events[0]) else SelectedOutput(events[1..], planId)
  }

  /** What was selected stays selected, whatever is recorded later. */
  lemma {:induction false} FirstStands(events: History, more: History, planId: Text)
    requires SelectedOutput(events, planId).Some?
    ensures SelectedOutput(events + more, planId) == SelectedOutput(events, planId)
  {
    assert (events + more)[0] == events[0] && (events + more)[1..] == events[1..] + more;
    if !IsOutput(events[0], planId) {
      FirstStands(events[1..], more, planId);
    }
  }

  /** Two completions of one preparation, at any two moments of one shared run, return the same selection. */
  lemma CompletionsAgree(c: Config, w: World, actions: seq<Action>, planId: Text)
    requires Reachable(c, w)
    requires Continues(c, w, actions)
    requires SelectedOutput(w.journal, planId).Some?
    ensures SelectedOutput(Follow(w, actions).journal, planId) == SelectedOutput(w.journal, planId)
  {
    hide Continues, Act, Inv, Reachable, SelectedOutput;
    ReachableInv(c, w);
    RunExtends(c, w, actions);
    var v := Follow(w, actions);
    FirstStands(w.journal, v.journal[|w.journal|..], planId);
    assert v.journal == w.journal + v.journal[|w.journal|..];
  }

  lemma OutputIsSelection(events: History, e: Event, planId: Text) returns (i: nat)
    requires e in events && IsOutput(e, planId)
    ensures i < |Scoped(events, planId)| && Scoped(events, planId)[i] == e
    ensures Selects(Scoped(events, planId), i, e.body.observation.operationId,
                    Selection(ObservedOutput(Observation), e.body.observation.evidenceVersion, e.body.observation.evidence))
  {
    assert e in Scoped(events, planId);
    i :| 0 <= i < |Scoped(events, planId)| && Scoped(events, planId)[i] == e;
  }

  /** Every Satisfied output recorded by anyone, at any later moment, is the one that a completion saw selected:
      same operation, same version, same bytes. */
  lemma EveryOutputIsSelected(
      c: Config, w: World, tag: Text -> ScopeKind, actions: seq<Action>, planId: Text, e: Event, selected: Event)
    requires Reachable(c, w) && TagsAgree(c, tag) && tag(planId) == PreparationScope
    requires Continues(c, w, actions)
    requires SelectedOutput(w.journal, planId) == Some(selected)
    requires e in Follow(w, actions).journal && IsOutput(e, planId)
    ensures e.body.observation.operationId == selected.body.observation.operationId
    ensures e.body.observation.evidenceVersion == selected.body.observation.evidenceVersion
    ensures e.body.observation.evidence == selected.body.observation.evidence
  {
    hide Selects, SelectedOutput, Continues, Act, Reachable, TagsAgree;
    var v := Follow(w, actions);
    FollowReachable(c, w, actions);
    CompletionsAgree(c, w, actions, planId);
    var i := OutputIsSelection(v.journal, e, planId);
    var j := OutputIsSelection(v.journal, selected, planId);
    PreparationsAgree(c, v, tag, planId, i, j, e.body.observation.operationId, selected.body.observation.operationId,
      Selection(ObservedOutput(Observation), e.body.observation.evidenceVersion, e.body.observation.evidence),
      Selection(ObservedOutput(Observation), selected.body.observation.evidenceVersion, selected.body.observation.evidence));
  }

  lemma {:induction false} ObservedIsFact(events: History, i: nat)
    requires i < |events| && events[i].body.ObservationRecorded?
    ensures events[i].body.observation in FactsOf(events, events[i].body.observation.operationId).observations
  {
    var prior, last := events[..|events| - 1], events[|events| - 1];
    assert events == prior + [last];
    if i < |prior| {
      ObservedIsFact(prior, i);
    }
  }

  /** A selected preparation is Satisfied, and stays so in every extension that does not supersede it. */
  lemma SelectedStaysSatisfied(events: History, more: History, planId: Text, selected: Event)
    requires SelectedOutput(events, planId) == Some(selected)
    requires !SupersededIn(Scoped(events, planId) + more)
    ensures OperationStatusIn(Scoped(events, planId) + more, selected.body.observation.operationId, PreparationScope) == Satisfied
  {
    hide SelectedOutput, FactsOf;
    var scoped := Scoped(events, planId);
    var i := OutputIsSelection(events, selected, planId);
    ObservedIsFact(scoped, i);
    var observations := FactsOf(scoped, selected.body.observation.operationId).observations;
    var k :| 0 <= k < |observations| && observations[k] == selected.body.observation;
    assert AnySatisfiedObservation(observations);
    assert !SupersededIn(scoped) by {
      SupersessionStays(scoped, more);
    }
    PreparationStatusIsSticky(scoped, more, selected.body.observation.operationId);
  }

  lemma SupersessionStays(events: History, more: History)
    ensures SupersededIn(events) ==> SupersededIn(events + more)
  {
    if SupersededIn(events) {
      var i :| 0 <= i < |events| && events[i].body.PlanSuperseded?;
      assert (events + more)[i].body.PlanSuperseded?;
    }
  }

  lemma RecordedIsSelected(events: History, planId: Text, body: Body)
    requires exists i :: 0 <= i < |events| && events[i].body == body && events[i].planId == planId
    requires body.ObservationRecorded? && body.observation.evidenceKind == Observation && body.observation.status == Satisfied
    ensures SelectedOutput(events, planId).Some?
  {
    var i :| 0 <= i < |events| && events[i].body == body && events[i].planId == planId;
    assert events[i] in events && IsOutput(events[i], planId);
  }

  // ---- One completion ----

  predicate IsSubmission(e: Event, planId: Text) {
    e.planId == planId && e.body.ReceiptAccepted?
  }

  function FindReceipt(events: History, planId: Text): (r: Option<Receipt>)
    ensures r.Some? ==> exists e :: e in events && IsSubmission(e, planId) && e.body.receipt == r.value
    ensures r.None? ==> forall e :: e in events ==> !IsSubmission(e, planId)
  {
    if events == [] then None
    else
      assert events == [events[0]] + events[1..];
      if IsSubmission(events[0], planId) then Some(events[0].body.receipt) else FindReceipt(events[1..], planId)
  }

  /** The completion was recorded, under whatever identity and time. */
  ghost predicate CompletionRecorded(w: World, planId: Text, operation: Operation, completed: Completed) {
    exists e :: e in w.journal && IsCompletion(e, planId, operation, completed)
  }

  predicate IsCompletion(e: Event, planId: Text, operation: Operation, completed: Completed) {
    && e.planId == planId && e.body.ObservationRecorded?
    && var o := e.body.observation;
      && o.operationId == operation.operationId && o.evidenceKind == Observation && o.dispatchId.None?
      && o.status == completed.status && o.evidenceVersion == completed.version && o.evidence == completed.evidence
  }

  /** What was completed is a submission that the journal holds. */
  ghost predicate Completes(w: World, planId: Text, complete: Json -> Result<Completed>, completed: Completed) {
    exists e :: e in w.journal && IsSubmission(e, planId) && complete(e.body.receipt.value) == Ok(completed)
  }

  /** What finishing the native work reports for an accepted submission. */
  datatype Completed = Completed(version: Text, status: ObservationStatus, evidence: Json)

  /** `runPreparation`: dispatch, then one completion, under the common history laws. A run that returns with
      Satisfied evidence in hand leaves a selection behind: its own, or the one that was there before it. */
  method RunPreparation(run: ReleaseRun, complete: Json -> Result<Completed>, operation: Operation)
    returns (r: Result<()>, finished: Option<Completed>)
    requires run.Valid() && run.Pc().Idle? && !run.options.observe
    requires run.visited == {} && run.dispatches == 0 && run.visits == [] && run.sent == []
    modifies run
    ensures run.Valid() && Later(old(run.world), run.world) && run.Pc().Idle?
    ensures r.Ok? && finished.Some? && finished.value.status == Satisfied ==>
      SelectedOutput(run.world.journal, run.PlanOf().planId).Some?
    ensures r.Ok? && finished.None? ==>
      || SelectedOutput(run.world.journal, run.PlanOf().planId).Some?
      || forall e :: e in run.world.journal ==> !IsSubmission(e, run.PlanOf().planId)
    ensures r.Ok? && finished.Some? ==>
      && Completes(run.world, run.PlanOf().planId, complete, finished.value)
      && (|| CompletionRecorded(run.world, run.PlanOf().planId, operation, finished.value)
          || SelectedOutput(run.world.journal, run.PlanOf().planId).Some?)
  {
    hide Reachable, Honest, OwnScope, Later, SelectedOutput, Tally, ReadAdmits, SelectedMachine, FindReceipt, Ledger, LeftBlocked,
         CompletionRecorded, Completes;
    finished := None;
    var ran := run.RunRelease();
    if ran.Fail? {
      return Fail(ran.refusal), None;
    }
    ghost var first := run.world;
    var before := run.ReadJournal();
    LaterTwice(old(run.world), first, run.world);
    if before.Fail? {
      return Fail(before.refusal), None;
    }
    var planId := run.PlanOf().planId;
    if SelectedOutput(before.value.snapshot.events, planId).Some? {
      return Ok(()), None;
    }
    var receipt := FindReceipt(before.value.snapshot.events, planId);
    if receipt.None? {
      return Ok(()), None;
    }
    var completed := complete(receipt.value.value);
    if completed.Fail? {
      return Fail(completed.refusal), None;
    }
    finished := Some(completed.value);
    ghost var second := run.world;
    SubmissionCompletes(second, planId, complete, completed.value, receipt.value);
    r := RecordCompletion(run, completed.value, operation);
    LaterTwice(old(run.world), second, run.world);
    CompletesLater(second, run.world, planId, complete, completed.value);
  }

  lemma SubmissionCompletes(w: World, planId: Text, complete: Json -> Result<Completed>, completed: Completed, receipt: Receipt)
    requires FindReceipt(w.journal, planId) == Some(receipt) && complete(receipt.value) == Ok(completed)
    ensures Completes(w, planId, complete, completed)
  {
  }

  lemma CompletesLater(w: World, v: World, planId: Text, complete: Json -> Result<Completed>, completed: Completed)
    requires Later(w, v) && Completes(w, planId, complete, completed)
    ensures Completes(v, planId, complete, completed)
  {
    var e :| e in w.journal && IsSubmission(e, planId) && complete(e.body.receipt.value) == Ok(completed);
    var i :| 0 <= i < |w.journal| && w.journal[i] == e;
    assert v.journal[i] == e;
  }

  lemma RecordedCompletes(w: World, planId: Text, operation: Operation, completed: Completed, body: Body)
    requires BodyRecorded(w, planId, body) && body.ObservationRecorded?
    requires body == ObservationRecorded(Observed(operation.operationId, Observation, None, completed.status, completed.version,
                                                  completed.evidence, body.observation.observedAt))
    ensures CompletionRecorded(w, planId, operation, completed)
  {
    var i :| 0 <= i < |w.journal| && w.journal[i].body == body && w.journal[i].planId == planId;
    assert IsCompletion(w.journal[i], planId, operation, completed);
  }

  /** Record the completion, or accept the selection that was recorded first. */
  method RecordCompletion(run: ReleaseRun, completed: Completed, operation: Operation) returns (r: Result<()>)
    requires run.Valid() && run.Pc().Idle?
    modifies run`world, run`tick
    ensures run.Valid() && Later(old(run.world), run.world) && run.Pc().Idle?
    ensures r.Ok? && completed.status == Satisfied ==> SelectedOutput(run.world.journal, run.PlanOf().planId).Some?
    ensures r.Ok? ==>
      || CompletionRecorded(run.world, run.PlanOf().planId, operation, completed)
      || SelectedOutput(run.world.journal, run.PlanOf().planId).Some?
  {
    hide Reachable, Honest, OwnScope, Later, ReadAdmits, SelectedMachine, CompletionRecorded;
    var body := ObservationRecorded(Observed(operation.operationId, Observation, None, completed.status, completed.version,
                                             completed.evidence, run.script.now(run.tick)));
    r := run.AppendBody(body);
    if r.Ok? {
      RecordedCompletes(run.world, run.PlanOf().planId, operation, completed, body);
    }
    if r.Ok? && completed.status == Satisfied {
      RecordedIsSelected(run.world.journal, run.PlanOf().planId, body);
    }
    if r.Fail? && r.refusal == PreparationSelected {
      ghost var first := run.world;
      var after := run.ReadJournal();
      LaterTwice(old(run.world), first, run.world);
      r := if after.Fail? then Fail(after.refusal)
           else if SelectedOutput(after.value.snapshot.events, run.PlanOf().planId).Some? then Ok(())
           else Fail(PreparationSelected);
    }
  }
}
