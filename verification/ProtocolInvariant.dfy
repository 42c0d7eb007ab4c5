/** What every reachable world keeps. */
module ProtocolInvariant {
  import opened Texts
  import opened ReleaseModel
  import opened Protocol

  /** The one event ever created under this identity. */
  predicate Known(w: World, event: Event) {
    event.eventId in w.created && w.created[event.eventId] == event
  }

  /** Each recorded event was vetted by its writer on exactly the journal before it. */
  ghost predicate JournalInv(c: Config, w: World) {
    && |w.writers| == |w.journal|
    && (forall j :: 0 <= j < |w.journal| ==>
          Known(w, w.journal[j]) && Vetted(c, w.writers[j], w.journal[..j], w.journal[j]))
  }

  /** An append in flight was vetted on the prefix its revision names. */
  ghost predicate AppendOk(c: Config, w: World, a: Append) {
    a.revision <= |w.journal| && Known(w, a.event) && Vetted(c, a.who, w.journal[..a.revision], a.event)
  }

  ghost predicate IssuedInv(c: Config, w: World) {
    forall a :: a in w.issued ==> AppendOk(c, w, a)
  }

  ghost predicate RunnerOk(c: Config, w: World, runner: Runner) {
    match runner
    case Idle => true
    case Decided(a) => AppendOk(c, w, a) && a.event.body.DispatchStarted?
    case Awaiting(a) => AppendOk(c, w, a) && a.event.body.DispatchStarted?
    case Reconciling(a) => AppendOk(c, w, a) && a.event.body.DispatchStarted?
    case Owner(a) => Known(w, a.event) && a.event.body.DispatchStarted? && Recorded(w, a.event)
    case Sent(a) => Known(w, a.event) && a.event.body.DispatchStarted? && Recorded(w, a.event)
    case FactReady(f, _, _) => Known(w, f)
    case FactDecided(a, _) => AppendOk(c, w, a)
    case FactAwaiting(a, _) => AppendOk(c, w, a)
    case FactDone(f) => Known(w, f) && Recorded(w, f)
    case FactFailed(f) => Known(w, f)
  }

  ghost predicate RunnersInv(c: Config, w: World) {
    forall r :: r in w.runners ==> RunnerOk(c, w, w.runners[r])
  }

  /** Identities are honest, and a rejection exists only for a dispatch the remote refused. */
  predicate CreatedInv(w: World) {
    forall id :: id in w.created ==> CreatedOk(w, id, w.created[id])
  }

  /** The dispatch event a call stack holds and has not sent. */
  function Held(runner: Runner): Option<Event> {
    match runner
    case Decided(a) => Some(a.event)
    case Awaiting(a) => Some(a.event)
    case Reconciling(a) => Some(a.event)
    case Owner(a) => Some(a.event)
    case _ => None
  }

  /** No two call stacks hold one dispatch, and a held dispatch has not been sent. */
  ghost predicate OwnershipInv(w: World) {
    && (forall r, s :: r in w.runners && s in w.runners && r != s && Held(w.runners[r]).Some? && Held(w.runners[s]).Some?
          ==> Held(w.runners[r]).value.eventId != Held(w.runners[s]).value.eventId)
    && (forall r :: r in w.runners && Held(w.runners[r]).Some? ==> DispatchOf(Held(w.runners[r]).value) !in w.sends)
  }

  predicate StartRecorded(w: World, dispatchId: Text) {
    exists i :: 0 <= i < |w.journal| && w.journal[i].body.DispatchStarted?
                && w.journal[i].body.start.dispatchId == dispatchId
  }

  /** Everything sent was recorded first and is sent once; nothing refused is committed. */
  ghost predicate RemoteInv(w: World) {
    && (forall i, j :: 0 <= i < j < |w.sends| ==> w.sends[i] != w.sends[j])
    && (forall i :: 0 <= i < |w.sends| ==> StartRecorded(w, w.sends[i]))
    && (forall k :: k in w.commits ==> k < |w.sends| && w.sends[k] !in w.refused)
  }

  /** Every identity ever sent was created before. */
  ghost predicate SentKnown(w: World) {
    forall i :: 0 <= i < |w.sends| ==> NamesCreated(w, w.sends[i])
  }

  ghost predicate NamesCreated(w: World, d: Text) {
    exists id :: id in w.created && d == id + DISPATCH_SUFFIX
  }

  ghost predicate Inv(c: Config, w: World) {
    && JournalInv(c, w) && IssuedInv(c, w) && RunnersInv(c, w)
    && CreatedInv(w) && OwnershipInv(w) && RemoteInv(w) && SentKnown(w)
  }

  // ---- Frames: what an extension of the journal or of the created events leaves alone ----

  ghost predicate Extends(w: World, v: World) {
    && w.journal <= v.journal
    && (forall id :: id in w.created ==> id in v.created && v.created[id] == w.created[id])
  }

  lemma AppendStaysOk(c: Config, w: World, v: World, a: Append)
    requires Extends(w, v) && AppendOk(c, w, a)
    ensures AppendOk(c, v, a)
  {
    hide Vetted;
    assert v.journal[..a.revision] == w.journal[..a.revision];
  }

  lemma RecordedStays(w: World, v: World, event: Event)
    requires Extends(w, v) && Recorded(w, event)
    ensures Recorded(v, event)
  {
    var i :| 0 <= i < |w.journal| && w.journal[i] == event;
    assert v.journal[i] == event;
  }

  lemma RunnerStaysOk(c: Config, w: World, v: World, runner: Runner)
    requires Extends(w, v) && RunnerOk(c, w, runner)
    ensures RunnerOk(c, v, runner)
  {
    hide AppendOk, Recorded;
    match runner {
      case Decided(a) => AppendStaysOk(c, w, v, a);
      case Awaiting(a) => AppendStaysOk(c, w, v, a);
      case Reconciling(a) => AppendStaysOk(c, w, v, a);
      case Owner(a) => RecordedStays(w, v, a.event);
      case Sent(a) => RecordedStays(w, v, a.event);
      case FactDecided(a, _) => AppendStaysOk(c, w, v, a);
      case FactAwaiting(a, _) => AppendStaysOk(c, w, v, a);
      case FactDone(f) => RecordedStays(w, v, f);
      case _ =>
    }
  }

  lemma ActExtends(c: Config, w: World, a: Action)
    requires Enabled(c, w, a)
    ensures Extends(w, Act(w, a))
  {
    hide Vetted, Recorded, Landed;
  }

  /** The runner an action moves, if any. */
  function Mover(a: Action): Option<nat> {
    match a
    case Decide(r, _, _) => Some(r)
    case Issue(r) => Some(r)
    case Appended(r) => Some(r)
    case NotAppended(r) => Some(r)
    case Ambiguous(r) => Some(r)
    case Reconcile(r) => Some(r)
    case Send(r) => Some(r)
    case Outcome(r, _) => Some(r)
    case NewFact(r, _, _) => Some(r)
    case FindFact(r) => Some(r)
    case DecideFact(r) => Some(r)
    case FactRecorded(r) => Some(r)
    case RetryFact(r) => Some(r)
    case RejectFact(r) => Some(r)
    case Stop(r) => Some(r)
    case Land(_) => None
    case Commit(_) => None
    case Refuse(_) => None
  }

  lemma OnlyMoverMoves(c: Config, w: World, a: Action, s: nat)
    requires Enabled(c, w, a) && Mover(a) != Some(s)
    ensures At(Act(w, a), s) == At(w, s)
    ensures s in Act(w, a).runners <==> s in w.runners
  {
    hide Vetted, Recorded, Landed;
  }

  lemma LandedIsRecorded(w: World, a: Append)
    requires Landed(w, a)
    ensures Recorded(w, a.event)
  {
    assert w.journal[a.revision] == a.event;
  }

  /** An append decided on the whole journal is in order. */
  lemma DecidedIsOk(c: Config, v: World, event: Event, who: Actor)
    requires Known(v, event) && Vetted(c, who, v.journal, event)
    ensures AppendOk(c, v, Append(|v.journal|, event, who))
  {
    hide Vetted;
    assert v.journal[..|v.journal|] == v.journal;
  }

  predicate MovesFact(a: Action) {
    a.FindFact? || a.DecideFact? || a.FactRecorded? || a.RetryFact? || a.RejectFact?
  }

  /** The runner that moved is again in order. */
  lemma MoverOk(c: Config, w: World, a: Action)
    requires Inv(c, w) && Enabled(c, w, a) && Mover(a).Some?
    ensures RunnerOk(c, Act(w, a), At(Act(w, a), Mover(a).value))
  {
    hide Act, Enabled, RunnerOk, JournalInv, IssuedInv, CreatedInv, OwnershipInv, RemoteInv, SentKnown;
    IdleIsOk(c, w);
    ActExtends(c, w, a);
    if MovesFact(a) {
      FactMoverOk(c, w, a);
    } else {
      DispatchMoverOk(c, w, a);
    }
  }

  lemma IdleIsOk(c: Config, w: World)
    ensures RunnerOk(c, w, Idle)
  {
  }

  lemma FactMoverOk(c: Config, w: World, a: Action)
    requires Enabled(c, w, a) && MovesFact(a) && RunnerOk(c, w, At(w, Mover(a).value)) && Extends(w, Act(w, a))
    ensures RunnerOk(c, Act(w, a), At(Act(w, a), Mover(a).value))
  {
    hide Vetted, Recorded, Extends;
    var v := Act(w, a);
    var runner := At(w, Mover(a).value);
    RunnerStaysOk(c, w, v, runner);
    match a {
      case FindFact(_) => RecordedStays(w, v, runner.fact);
      case DecideFact(_) => DecidedIsOk(c, v, runner.fact, runner.who);
      case FactRecorded(_) => RecordedStays(w, v, runner.append.event);
      case _ =>
    }
  }

  lemma DispatchMoverOk(c: Config, w: World, a: Action)
    requires Enabled(c, w, a) && Mover(a).Some? && !MovesFact(a)
    requires RunnerOk(c, w, At(w, Mover(a).value)) && Extends(w, Act(w, a))
    ensures RunnerOk(c, Act(w, a), At(Act(w, a), Mover(a).value))
  {
    hide Vetted, Recorded, Landed, Extends;
    var v := Act(w, a);
    var runner := At(w, Mover(a).value);
    RunnerStaysOk(c, w, v, runner);
    match a {
      case Decide(_, who, event) => DecidedIsOk(c, v, event, who);
      case Appended(_) => LandedIsRecorded(w, runner.append); RecordedStays(w, v, runner.append.event);
      case Reconcile(_) =>
        if Recorded(w, runner.append.event) { RecordedStays(w, v, runner.append.event); }
      case _ =>
    }
  }

  lemma RunnersKept(c: Config, w: World, a: Action)
    requires Inv(c, w) && Enabled(c, w, a)
    ensures RunnersInv(c, Act(w, a))
  {
    hide RunnerOk, Enabled, Act, JournalInv, IssuedInv, CreatedInv, OwnershipInv, RemoteInv, SentKnown;
    var v := Act(w, a);
    ActExtends(c, w, a);
    forall s | s in v.runners ensures RunnerOk(c, v, v.runners[s]) {
      if Mover(a) == Some(s) {
        MoverOk(c, w, a);
      } else {
        OnlyMoverMoves(c, w, a, s);
        RunnerStaysOk(c, w, v, w.runners[s]);
      }
    }
  }

  lemma JournalAndIssuedKept(c: Config, w: World, a: Action)
    requires Inv(c, w) && Enabled(c, w, a)
    ensures JournalInv(c, Act(w, a)) && IssuedInv(c, Act(w, a))
  {
    hide Vetted, Recorded, Landed, CreatedInv, OwnershipInv, RemoteInv, SentKnown;
    var v := Act(w, a);
    ActExtends(c, w, a);
    forall j | 0 <= j < |v.journal|
      ensures Known(v, v.journal[j]) && j < |v.writers| && Vetted(c, v.writers[j], v.journal[..j], v.journal[j])
    {
      if j < |w.journal| {
        assert v.journal[..j] == w.journal[..j];
      } else {
        assert AppendOk(c, w, a.append) && v.journal[..j] == w.journal;
        assert w.journal[..a.append.revision] == w.journal;
      }
    }
    forall x | x in v.issued ensures AppendOk(c, v, x) {
      if x in w.issued {
        AppendStaysOk(c, w, v, x);
      } else {
        assert RunnerOk(c, w, At(w, a.r));
        AppendStaysOk(c, w, v, x);
      }
    }
  }

  /** What an honest identity means for one event. */
  predicate CreatedOk(w: World, id: Text, event: Event) {
    && event.eventId == id
    && (event.body.DispatchStarted? ==> DispatchOf(event) == id + DISPATCH_SUFFIX)
    && (event.body.DispatchRejectedBeforeCommit? ==> event.body.rejection.dispatchId in w.refused)
  }

  /** The event an action creates, if any. */
  function Created(a: Action): Option<Event> {
    match a
    case Decide(_, _, event) => Some(event)
    case Outcome(_, fact) => Some(fact)
    case NewFact(_, _, fact) => Some(fact)
    case _ => None
  }

  lemma CreatesOne(c: Config, w: World, a: Action)
    requires Enabled(c, w, a)
    ensures w.refused <= Act(w, a).refused
    ensures Act(w, a).created == match Created(a) case Some(e) => w.created[e.eventId := e] case None => w.created
    ensures Created(a).Some? ==> CreatedOk(w, Created(a).value.eventId, Created(a).value)
  {
    hide Vetted, Recorded, Landed;
  }

  lemma CreatedKept(c: Config, w: World, a: Action)
    requires CreatedInv(w) && Enabled(c, w, a)
    ensures CreatedInv(Act(w, a))
  {
    hide Enabled, Act;
    CreatesOne(c, w, a);
    var v := Act(w, a);
    forall id | id in v.created ensures CreatedOk(v, id, v.created[id]) {
      assert (Created(a).Some? && id == Created(a).value.eventId) || CreatedOk(w, id, w.created[id]);
    }
  }

  lemma SuffixInjective(a: Text, b: Text)
    requires a + DISPATCH_SUFFIX == b + DISPATCH_SUFFIX
    ensures a == b
  {
    assert |a| == |b|;
    assert a == (a + DISPATCH_SUFFIX)[..|a|] && b == (b + DISPATCH_SUFFIX)[..|b|];
  }

  /** A dispatch identity made from a fresh event identity was never sent. */
  lemma FreshNeverSent(c: Config, w: World, id: Text)
    requires SentKnown(w) && id !in w.created
    ensures id + DISPATCH_SUFFIX !in w.sends
  {
    if id + DISPATCH_SUFFIX in w.sends {
      var i :| 0 <= i < |w.sends| && w.sends[i] == id + DISPATCH_SUFFIX;
      var other :| other in w.created && w.sends[i] == other + DISPATCH_SUFFIX;
      SuffixInjective(id, other);
    }
  }

  /** The dispatch events held before an action are those held after it, except for its mover. */
  lemma HeldKept(c: Config, w: World, a: Action, s: nat)
    requires Inv(c, w) && Enabled(c, w, a)
    requires Held(At(Act(w, a), s)).Some?
    ensures Held(At(w, s)) == Held(At(Act(w, a), s))
         || (a.Decide? && s == a.r && Held(At(Act(w, a), s)).value == a.event)
    ensures a.Send? ==> s != a.r
  {
    hide Vetted, Recorded, Landed, JournalInv, IssuedInv, RunnersInv, CreatedInv, OwnershipInv, RemoteInv, SentKnown;
    if Mover(a) != Some(s) {
      OnlyMoverMoves(c, w, a, s);
    }
  }

  lemma HeldKnown(c: Config, w: World, s: nat)
    requires RunnersInv(c, w) && CreatedInv(w) && Held(At(w, s)).Some?
    ensures Known(w, Held(At(w, s)).value)
    ensures DispatchOf(Held(At(w, s)).value) == Held(At(w, s)).value.eventId + DISPATCH_SUFFIX
  {
    hide Vetted, Recorded;
    assert RunnerOk(c, w, At(w, s));
  }

  lemma OwnershipKept(c: Config, w: World, a: Action)
    requires Inv(c, w) && Enabled(c, w, a)
    ensures OwnershipInv(Act(w, a))
  {
    hide Vetted, Recorded, Landed, RunnerOk, Act, JournalInv, IssuedInv, RemoteInv;
    var v := Act(w, a);
    forall r, s | r in v.runners && s in v.runners && r != s && Held(v.runners[r]).Some? && Held(v.runners[s]).Some?
      ensures Held(v.runners[r]).value.eventId != Held(v.runners[s]).value.eventId
    {
      HeldKept(c, w, a, r);
      HeldKept(c, w, a, s);
      if Held(At(w, r)).Some? { HeldKnown(c, w, r); }
      if Held(At(w, s)).Some? { HeldKnown(c, w, s); }
    }
    forall s | s in v.runners && Held(v.runners[s]).Some? ensures DispatchOf(Held(v.runners[s]).value) !in v.sends {
      HeldKept(c, w, a, s);
      HeldStaysUnsent(c, w, a, s);
    }
  }

  lemma HeldStaysUnsent(c: Config, w: World, a: Action, s: nat)
    requires Inv(c, w) && Enabled(c, w, a)
    requires Held(At(Act(w, a), s)).Some?
    ensures DispatchOf(Held(At(Act(w, a), s)).value) !in Act(w, a).sends
  {
    hide Vetted, Recorded, Landed, RunnerOk, JournalInv, IssuedInv, RemoteInv;
    HeldKept(c, w, a, s);
    if a.Decide? && s == a.r {
      FreshNeverSent(c, w, a.event.eventId);
    } else if a.Send? {
      HeldKnown(c, w, s);
      HeldKnown(c, w, a.r);
      if DispatchOf(Held(At(w, s)).value) == DispatchOf(Held(At(w, a.r)).value) {
        SuffixInjective(Held(At(w, s)).value.eventId, Held(At(w, a.r)).value.eventId);
      }
    }
  }

  lemma StartedStays(w: World, v: World, d: Text)
    requires Extends(w, v) && StartRecorded(w, d)
    ensures StartRecorded(v, d)
  {
    var i :| 0 <= i < |w.journal| && w.journal[i].body.DispatchStarted? && w.journal[i].body.start.dispatchId == d;
    assert v.journal[i] == w.journal[i];
  }

  lemma SendsStayDistinct(c: Config, w: World, a: Action)
    requires Inv(c, w) && Enabled(c, w, a)
    ensures forall i, j :: 0 <= i < j < |Act(w, a).sends| ==> Act(w, a).sends[i] != Act(w, a).sends[j]
  {
    hide Vetted, Landed, Recorded, RunnerOk, JournalInv, IssuedInv, CreatedInv, SentKnown, StartRecorded;
    if a.Send? {
      assert Held(At(w, a.r)).Some?;
      assert DispatchOf(Held(At(w, a.r)).value) !in w.sends;
    }
  }

  lemma SendsStayRecorded(c: Config, w: World, a: Action, i: nat)
    requires Inv(c, w) && Enabled(c, w, a) && i < |Act(w, a).sends|
    ensures StartRecorded(Act(w, a), Act(w, a).sends[i])
  {
    hide Vetted, Landed, Recorded, RunnerOk, JournalInv, IssuedInv, OwnershipInv, SentKnown, StartRecorded;
    var v := Act(w, a);
    ActExtends(c, w, a);
    if i < |w.sends| {
      StartedStays(w, v, w.sends[i]);
    } else {
      SendIsStarted(c, w, a.r);
      StartedStays(w, v, v.sends[i]);
    }
  }

  lemma CommitsStayUnrefused(c: Config, w: World, a: Action)
    requires Inv(c, w) && Enabled(c, w, a)
    ensures forall k :: k in Act(w, a).commits ==> k < |Act(w, a).sends| && Act(w, a).sends[k] !in Act(w, a).refused
  {
    hide Vetted, Landed, Recorded, RunnerOk, JournalInv, IssuedInv, CreatedInv, OwnershipInv, SentKnown, StartRecorded;
  }

  lemma RemoteKept(c: Config, w: World, a: Action)
    requires Inv(c, w) && Enabled(c, w, a)
    ensures RemoteInv(Act(w, a)) && SentKnown(Act(w, a))
  {
    hide Inv, Enabled, Act, SentKnown, StartRecorded;
    SendsStayDistinct(c, w, a);
    CommitsStayUnrefused(c, w, a);
    SentKnownKept(c, w, a);
    forall i | 0 <= i < |Act(w, a).sends| ensures StartRecorded(Act(w, a), Act(w, a).sends[i]) {
      SendsStayRecorded(c, w, a, i);
    }
  }

  lemma SentKnownKept(c: Config, w: World, a: Action)
    requires Inv(c, w) && Enabled(c, w, a)
    ensures SentKnown(Act(w, a))
  {
    hide Vetted, Landed, Recorded, CreatedOk, RunnerOk, JournalInv, IssuedInv, OwnershipInv, RemoteInv, NamesCreated;
    var v := Act(w, a);
    ActExtends(c, w, a);
    forall i | 0 <= i < |v.sends| ensures NamesCreated(v, v.sends[i]) {
      if i < |w.sends| {
        NamedStays(w, v, w.sends[i]);
      } else {
        SendIsStarted(c, w, a.r);
        NamedNow(w, At(w, a.r).append.event);
        NamedStays(w, v, v.sends[i]);
      }
    }
  }

  lemma NamedStays(w: World, v: World, d: Text)
    requires Extends(w, v) && NamesCreated(w, d)
    ensures NamesCreated(v, d)
  {
    var id :| id in w.created && d == id + DISPATCH_SUFFIX;
    assert id in v.created;
  }

  lemma NamedNow(w: World, event: Event)
    requires Known(w, event) && DispatchOf(event) == event.eventId + DISPATCH_SUFFIX
    ensures NamesCreated(w, DispatchOf(event))
  {
  }

  lemma SendIsStarted(c: Config, w: World, r: nat)
    requires RunnersInv(c, w) && CreatedInv(w) && At(w, r).Owner?
    ensures StartRecorded(w, DispatchOf(At(w, r).append.event))
    ensures Known(w, At(w, r).append.event)
    ensures DispatchOf(At(w, r).append.event) == At(w, r).append.event.eventId + DISPATCH_SUFFIX
  {
    hide Vetted;
    assert RunnerOk(c, w, At(w, r));
    var i :| 0 <= i < |w.journal| && w.journal[i] == At(w, r).append.event;
    assert w.journal[i].body.DispatchStarted?;
  }

  /** Every reachable world keeps the invariant. */
  lemma {:induction false} InvAlways(c: Config, actions: seq<Action>)
    requires Run(c, actions)
    ensures Inv(c, After(actions))
  {
    if actions != [] {
      hide Enabled, Act, JournalInv, IssuedInv, RunnersInv, CreatedInv, OwnershipInv, RemoteInv, SentKnown;
      var prior, a := actions[..|actions| - 1], actions[|actions| - 1];
      InvAlways(c, prior);
      JournalAndIssuedKept(c, After(prior), a);
      RunnersKept(c, After(prior), a);
      CreatedKept(c, After(prior), a);
      OwnershipKept(c, After(prior), a);
      RemoteKept(c, After(prior), a);
    }
  }
}
