/** What admitted native evidence guarantees, in terms of the recorded events and the providers' own contracts. */
module NativeLaws {
  import opened Texts
  import opened JsonData
  import opened ReleaseModel
  import opened Decision
  import opened HistoryLaws
  import opened Provider
  import opened Journal

  /** The operation of the plan under this identity, and the provider installed for it. */
  ghost predicate Installed(defs: Definitions, id: Text, o: Operation, p: ProviderDefinition) {
    FindOperation(defs.plan.operations, id) == Some(o) && FindProvider(defs.providers, o.definitionId) == Some(p)
  }

  /** The recorded value is the exact native encoding of what it decodes to. */
  ghost predicate Encodes(codec: Codec, value: Json, decoded: Json) {
    codec.decode(value) == Some(decoded) && codec.encode(decoded) == value
  }

  /** The last start before the i-th event under this dispatch identity. */
  ghost predicate StartedBefore(events: History, i: int, d: Text, s: Started) {
    exists j :: IsStartedBefore(events, i, d, s, j)
  }

  ghost predicate IsStartedBefore(events: History, i: int, d: Text, s: Started, j: int) {
    && 0 <= j < i <= |events| && events[j].body == DispatchStarted(s) && s.dispatchId == d
    && forall m :: j < m < i && events[m].body.DispatchStarted? ==> events[m].body.start.dispatchId != d
  }

  /** A start asks for what its provider would ask for, given the evidence of its time. */
  ghost predicate StartContract(defs: Definitions, events: History, i: int, s: Started)
    requires 0 <= i < |events|
  {
    exists o, p, context ::
      && Installed(defs, s.operationId, o, p)
      && EvidenceContext(defs.plan, o, events[..i]) == Ok(context)
      && p.requestCorresponds(o, s.request, context)
  }

  /** A receipt is in the installed version, encodes natively, belongs to the request that was dispatched, and
      completes it as the provider says. */
  ghost predicate ReceiptContract(defs: Definitions, events: History, i: int, r: Receipt)
    requires 0 <= i < |events|
  {
    exists s, o, p, receipt ::
      && StartedBefore(events, i, r.dispatchId, s) && Installed(defs, s.operationId, o, p)
      && r.version == p.receiptVersion && Encodes(p.receiptCodec, r.value, receipt)
      && p.receiptCorresponds(o, s.request, receipt)
      && p.classifyReceipt(o, s.request, receipt) == r.completion
  }

  /** A rejection carries a proof, in the installed version, about the very request that was dispatched. */
  ghost predicate RejectionContract(defs: Definitions, events: History, i: int, r: Rejection)
    requires 0 <= i < |events|
  {
    exists s, o, p, proof ::
      && StartedBefore(events, i, r.dispatchId, s) && Installed(defs, s.operationId, o, p)
      && p.rejection.Some? && r.proofVersion == p.rejection.value.version
      && Encodes(p.rejection.value.codec, r.proof, proof)
      && p.rejection.value.corresponds(o, s.request, proof)
  }

  /** The codec that reads error evidence of this version: the kernel's own, or the provider's. */
  ghost predicate ErrorCodecIs(core: CoreCodecs, p: ProviderDefinition, version: Text, codec: Codec) {
    || (version == CORE_DISPATCH_ERROR && codec == core.dispatchError)
    || (version == CORE_UNDECODABLE_RECEIPT && codec == core.undecodableReceipt)
    || (!IsCoreErrorVersion(version) && p.dispatchError.Some? && p.dispatchError.value.version == version
        && codec == p.dispatchError.value.codec)
  }

  /** An error of a dispatch names a dispatch of its operation, settles nothing, and is the kernel's own or belongs
      to the request. */
  ghost predicate ErrorContract(defs: Definitions, events: History, i: int, o: Observed)
    requires 0 <= i < |events|
  {
    && o.dispatchId.Some? && o.dispatchId.value != [] && o.status == Inconclusive
    && exists s, operation, p, codec, evidence ::
      && Installed(defs, o.operationId, operation, p)
      && StartedBefore(events, i, o.dispatchId.value, s) && s.operationId == operation.operationId
      && ErrorCodecIs(defs.core, p, o.evidenceVersion, codec) && Encodes(codec, o.evidence, evidence)
      && (IsCoreErrorVersion(o.evidenceVersion) || p.dispatchError.value.corresponds(operation, s.request, evidence))
  }

  /** An observation is classified by its provider from the evidence and the receipts of its time. */
  ghost predicate LookContract(defs: Definitions, events: History, i: int, o: Observed)
    requires 0 <= i < |events|
  {
    && o.dispatchId.None?
    && exists operation, p, evidence, context ::
      && Installed(defs, o.operationId, operation, p)
      && p.observation.Some? && p.observation.value.version == o.evidenceVersion
      && Encodes(p.observation.value.codec, o.evidence, evidence)
      && EvidenceContext(defs.plan, operation, events[..i]) == Ok(context)
      && p.observation.value.classify(
           operation, evidence, DecodedReceipts(defs, events[..i], operation.operationId), context) == o.status
  }

  /** The i-th event keeps its provider's contract, against what was recorded before it. */
  ghost predicate KeepsContract(defs: Definitions, events: History, i: int)
    requires 0 <= i < |events|
  {
    match events[i].body
    case DispatchStarted(s) => StartContract(defs, events, i, s)
    case ReceiptAccepted(r) => ReceiptContract(defs, events, i, r)
    case DispatchRejectedBeforeCommit(r) => RejectionContract(defs, events, i, r)
    case ObservationRecorded(o) =>
      if o.evidenceKind == DispatchError then ErrorContract(defs, events, i, o) else LookContract(defs, events, i, o)
    case _ => true
  }

  // ---- The laws say the same ----

  lemma InstalledMeans(defs: Definitions, id: Text, o: Operation, p: ProviderDefinition)
    ensures Installed(defs, id, o, p) <==> Definition(defs, id) == Ok(Defined(o, p))
  {
  }

  lemma EncodesMeans(codec: Codec, value: Json, decoded: Json)
    ensures Encodes(codec, value, decoded) <==> NativeEvidence(codec, value) == Ok(decoded)
  {
  }

  lemma {:induction false} LastStartMeans(events: History, i: int, d: Text, s: Started)
    requires 0 <= i <= |events|
    ensures LastStart(events[..i], d) == Some(s) <==> StartedBefore(events, i, d, s)
  {
    if i > 0 {
      var prior, last := events[..i - 1], events[i - 1];
      assert events[..i] == prior + [last];
      LastStartSnoc(prior, last, d);
      LastStartMeans(events, i - 1, d, s);
      var here := last.body.DispatchStarted? && last.body.start.dispatchId == d;
      if here {
        assert last.body == DispatchStarted(s) ==> IsStartedBefore(events, i, d, s, i - 1);
        forall j | IsStartedBefore(events, i, d, s, j) ensures j == i - 1 {
        }
      } else {
        if j :| IsStartedBefore(events, i, d, s, j) {
          assert IsStartedBefore(events, i - 1, d, s, j);
        }
        var n := i - 1;
        if j :| IsStartedBefore(events, n, d, s, j) {
          assert IsStartedBefore(events, i, d, s, j);
        }
      }
    } else {
      assert events[..0] == [];
    }
  }

  lemma StartLawMeans(defs: Definitions, events: History, i: int, s: Started)
    requires 0 <= i < |events|
    ensures StartLaw(defs, events[..i], s).Ok? <==> StartContract(defs, events, i, s)
  {
    hide EvidenceContext, Installed, Definition;
    forall o, p ensures Installed(defs, s.operationId, o, p) <==> Definition(defs, s.operationId) == Ok(Defined(o, p)) {
      InstalledMeans(defs, s.operationId, o, p);
    }
    var d := Definition(defs, s.operationId);
    if StartLaw(defs, events[..i], s).Ok? {
      var context := EvidenceContext(defs.plan, d.value.operation, events[..i]).value;
      assert Installed(defs, s.operationId, d.value.operation, d.value.provider);
    }
  }

  lemma ReceiptLawMeans(defs: Definitions, events: History, i: int, r: Receipt)
    requires 0 <= i < |events|
    ensures NativeLaw(defs, events[..i], ReceiptAccepted(r)).Ok? <==> ReceiptContract(defs, events, i, r)
  {
    hide Definition, Installed, LastStart, StartedBefore, NativeEvidence, Encodes;
    var start := LastStart(events[..i], r.dispatchId);
    forall s ensures start == Some(s) <==> StartedBefore(events, i, r.dispatchId, s) {
      LastStartMeans(events, i, r.dispatchId, s);
    }
    forall id, o, p ensures Installed(defs, id, o, p) <==> Definition(defs, id) == Ok(Defined(o, p)) {
      InstalledMeans(defs, id, o, p);
    }
    forall codec, decoded ensures Encodes(codec, r.value, decoded) <==> NativeEvidence(codec, r.value) == Ok(decoded) {
      EncodesMeans(codec, r.value, decoded);
    }
    if NativeLaw(defs, events[..i], ReceiptAccepted(r)).Ok? {
      var d := Definition(defs, start.value.operationId).value;
      var receipt := NativeEvidence(d.provider.receiptCodec, r.value).value;
      assert Installed(defs, start.value.operationId, d.operation, d.provider);
      assert Encodes(d.provider.receiptCodec, r.value, receipt);
    }
  }

  lemma RejectionLawMeans(defs: Definitions, events: History, i: int, r: Rejection)
    requires 0 <= i < |events|
    ensures NativeLaw(defs, events[..i], DispatchRejectedBeforeCommit(r)).Ok? <==> RejectionContract(defs, events, i, r)
  {
    hide Definition, Installed, LastStart, StartedBefore, NativeEvidence, Encodes;
    var start := LastStart(events[..i], r.dispatchId);
    forall s ensures start == Some(s) <==> StartedBefore(events, i, r.dispatchId, s) {
      LastStartMeans(events, i, r.dispatchId, s);
    }
    forall id, o, p ensures Installed(defs, id, o, p) <==> Definition(defs, id) == Ok(Defined(o, p)) {
      InstalledMeans(defs, id, o, p);
    }
    forall codec, decoded ensures Encodes(codec, r.proof, decoded) <==> NativeEvidence(codec, r.proof) == Ok(decoded) {
      EncodesMeans(codec, r.proof, decoded);
    }
    if NativeLaw(defs, events[..i], DispatchRejectedBeforeCommit(r)).Ok? {
      var d := Definition(defs, start.value.operationId).value;
      var proof := NativeEvidence(d.provider.rejection.value.codec, r.proof).value;
      assert Installed(defs, start.value.operationId, d.operation, d.provider);
      assert Encodes(d.provider.rejection.value.codec, r.proof, proof);
    }
  }

  lemma ErrorCodecMeans(core: CoreCodecs, p: ProviderDefinition, version: Text, codec: Codec)
    ensures ErrorCodec(core, p, version) == Some(codec) <==> ErrorCodecIs(core, p, version, codec)
  {
  }

  lemma ErrorLawMeans(defs: Definitions, events: History, i: int, o: Observed)
    requires 0 <= i < |events| && o.evidenceKind == DispatchError
    ensures ObservationLaw(defs, events[..i], o).Ok? <==> ErrorContract(defs, events, i, o)
  {
    hide Definition, Installed, LastStart, StartedBefore, NativeEvidence, Encodes, ErrorCodec, ErrorCodecIs, EvidenceContext,
         IsCoreErrorVersion, DecodedReceipts;
    var found := Definition(defs, o.operationId);
    forall operation, p ensures Installed(defs, o.operationId, operation, p) <==> found == Ok(Defined(operation, p)) {
      InstalledMeans(defs, o.operationId, operation, p);
    }
    forall p, codec ensures ErrorCodec(defs.core, p, o.evidenceVersion) == Some(codec)
                       <==> ErrorCodecIs(defs.core, p, o.evidenceVersion, codec) {
      ErrorCodecMeans(defs.core, p, o.evidenceVersion, codec);
    }
    forall codec, decoded ensures Encodes(codec, o.evidence, decoded) <==> NativeEvidence(codec, o.evidence) == Ok(decoded) {
      EncodesMeans(codec, o.evidence, decoded);
    }
    if o.dispatchId.Some? {
      forall s ensures LastStart(events[..i], o.dispatchId.value) == Some(s) <==> StartedBefore(events, i, o.dispatchId.value, s) {
        LastStartMeans(events, i, o.dispatchId.value, s);
      }
    }
    CoreErrorsFirst(defs.core, o.evidenceVersion);
    if ObservationLaw(defs, events[..i], o).Ok? {
      var d := found.value;
      var codec := ErrorCodec(defs.core, d.provider, o.evidenceVersion).value;
      var s := LastStart(events[..i], o.dispatchId.value).value;
      assert Installed(defs, o.operationId, d.operation, d.provider);
      assert StartedBefore(events, i, o.dispatchId.value, s);
      assert ErrorCodecIs(defs.core, d.provider, o.evidenceVersion, codec);
      assert Encodes(codec, o.evidence, NativeEvidence(codec, o.evidence).value);
    }
  }

  /** A version that is not the kernel's own is read by the provider's error boundary, which therefore exists. */
  lemma CoreErrorsFirst(core: CoreCodecs, version: Text)
    ensures forall p :: ErrorCodec(core, p, version).Some? && !IsCoreErrorVersion(version) ==> p.dispatchError.Some?
  {
  }

  lemma LookLawMeans(defs: Definitions, events: History, i: int, o: Observed)
    requires 0 <= i < |events| && o.evidenceKind == Observation
    ensures ObservationLaw(defs, events[..i], o).Ok? <==> LookContract(defs, events, i, o)
  {
    hide Definition, Installed, NativeEvidence, Encodes, EvidenceContext, DecodedReceipts;
    var found := Definition(defs, o.operationId);
    forall operation, p ensures Installed(defs, o.operationId, operation, p) <==> found == Ok(Defined(operation, p)) {
      InstalledMeans(defs, o.operationId, operation, p);
    }
    forall codec, decoded ensures Encodes(codec, o.evidence, decoded) <==> NativeEvidence(codec, o.evidence) == Ok(decoded) {
      EncodesMeans(codec, o.evidence, decoded);
    }
    if ObservationLaw(defs, events[..i], o).Ok? {
      var d := found.value;
      var evidence := NativeEvidence(d.provider.observation.value.codec, o.evidence).value;
      var context := EvidenceContext(defs.plan, d.operation, events[..i]).value;
      assert Installed(defs, o.operationId, d.operation, d.provider);
      assert Encodes(d.provider.observation.value.codec, o.evidence, evidence);
    }
  }

  lemma LawMeans(defs: Definitions, events: History, i: int)
    requires 0 <= i < |events|
    ensures NativeLaw(defs, events[..i], events[i].body).Ok? <==> KeepsContract(defs, events, i)
  {
    hide StartLaw, ObservationLaw, StartContract, ReceiptContract, RejectionContract, ErrorContract, LookContract, LastStart,
         ReceiptLaw, RejectionLaw;
    match events[i].body {
      case DispatchStarted(s) => StartLawMeans(defs, events, i, s);
      case ReceiptAccepted(r) => ReceiptLawMeans(defs, events, i, r);
      case DispatchRejectedBeforeCommit(r) => RejectionLawMeans(defs, events, i, r);
      case ObservationRecorded(o) =>
        if o.evidenceKind == DispatchError {
          ErrorLawMeans(defs, events, i, o);
        } else {
          LookLawMeans(defs, events, i, o);
        }
      case _ =>
    }
  }

  /** A history is natively admitted exactly when each of its events keeps its provider's contract. */
  lemma {:induction false} NativeExactly(defs: Definitions, events: History)
    ensures NativeVerdict(defs, events).Ok? <==> forall i :: 0 <= i < |events| ==> KeepsContract(defs, events, i)
  {
    hide NativeLaw, KeepsContract;
    if events != [] {
      var n := |events| - 1;
      var prior := events[..n];
      NativeExactly(defs, prior);
      LawMeans(defs, events, n);
      forall i | 0 <= i < n ensures KeepsContract(defs, prior, i) <==> KeepsContract(defs, events, i) {
        assert prior[..i] == events[..i] && prior[i] == events[i];
        LawMeans(defs, prior, i);
        LawMeans(defs, events, i);
      }
    }
  }

  /** Of an admitted lawful history: a rejection rests on a proof about the one start recorded under its identity. */
  lemma ClosedByItsOwnProof(defs: Definitions, events: History, i: int, j: int)
    requires Lawful(defs.plan, events) && NativeVerdict(defs, events).Ok?
    requires 0 <= i < |events| && events[i].body.DispatchRejectedBeforeCommit?
    requires 0 <= j < |events| && events[j].body.DispatchStarted?
    requires events[j].body.start.dispatchId == events[i].body.rejection.dispatchId
    ensures j < i
    ensures var s, r := events[j].body.start, events[i].body.rejection;
      exists o, p, proof ::
        && Installed(defs, s.operationId, o, p) && p.rejection.Some? && r.proofVersion == p.rejection.value.version
        && Encodes(p.rejection.value.codec, r.proof, proof) && p.rejection.value.corresponds(o, s.request, proof)
  {
    hide Lawful, NativeVerdict, Encodes, Installed;
    NativeExactly(defs, events);
    LawfulDistinctStarts(defs.plan, events);
    assert KeepsContract(defs, events, i);
    var s: Started :| StartedBefore(events, i, events[i].body.rejection.dispatchId, s)
      && exists o, p, proof :: Installed(defs, s.operationId, o, p) && p.rejection.Some?
           && events[i].body.rejection.proofVersion == p.rejection.value.version
           && Encodes(p.rejection.value.codec, events[i].body.rejection.proof, proof)
           && p.rejection.value.corresponds(o, s.request, proof);
    var m :| IsStartedBefore(events, i, events[i].body.rejection.dispatchId, s, m);
  }

  // ---- The outputs of a preparation ----

  /** The i-th event is a Satisfied output of the operation: an observation of it, or the receipt of a dispatch of it. */
  ghost predicate IsOutputOf(events: History, i: nat, id: Text, output: Selection) {
    && i < |events|
    && match events[i].body
       case ObservationRecorded(o) =>
         && o.status == Satisfied && o.operationId == id
         && output == Selection(ObservedOutput(o.evidenceKind), o.evidenceVersion, o.evidence)
       case ReceiptAccepted(r) =>
         && r.completion == Satisfied && output == Selection(ReceiptOutput, r.version, r.value)
         && exists s :: StartedBefore(events, i, r.dispatchId, s) && s.operationId == id
       case _ => false
  }

  lemma SelectsMeans(events: History, i: nat, id: Text, output: Selection)
    ensures Selects(events, i, id, output) <==> IsOutputOf(events, i, id, output)
  {
    hide LastStart, StartedBefore;
    if i < |events| && events[i].body.ReceiptAccepted? {
      var d := events[i].body.receipt.dispatchId;
      forall s ensures LastStart(events[..i], d) == Some(s) <==> StartedBefore(events, i, d, s) {
        LastStartMeans(events, i, d, s);
      }
    }
  }

  /** One selection: every Satisfied receipt belongs to a dispatch, and an operation has one output. */
  lemma SelectionMeans(events: History)
    ensures OneSelection(events) <==>
      && (forall i :: 0 <= i < |events| && events[i].body.ReceiptAccepted? && events[i].body.receipt.completion == Satisfied
            ==> exists s :: StartedBefore(events, i, events[i].body.receipt.dispatchId, s))
      && (forall i, j, id, a, b :: IsOutputOf(events, i, id, a) && IsOutputOf(events, j, id, b) ==> a == b)
  {
    hide LastStart, StartedBefore, Selects, IsOutputOf;
    forall i: nat, id, output ensures Selects(events, i, id, output) <==> IsOutputOf(events, i, id, output) {
      SelectsMeans(events, i, id, output);
    }
    forall i: nat | i < |events| && events[i].body.ReceiptAccepted?
      ensures LastOperation(events[..i], events[i].body.receipt.dispatchId).Some?
         <==> exists s :: StartedBefore(events, i, events[i].body.receipt.dispatchId, s)
    {
      var d := events[i].body.receipt.dispatchId;
      forall s ensures LastStart(events[..i], d) == Some(s) <==> StartedBefore(events, i, d, s) {
        LastStartMeans(events, i, d, s);
      }
      if LastStart(events[..i], d).Some? {
        assert StartedBefore(events, i, d, LastStart(events[..i], d).value);
      }
    }
  }

  // ---- The evidence of a moment ----

  lemma {:induction false} DependenciesMean(plan: Plan, events: History, dependsOn: seq<Text>, found: seq<OperationEvidence>)
    ensures DependencyEvidence(plan, events, dependsOn) == Ok(found) <==>
      && |found| == |dependsOn|
      && forall i :: 0 <= i < |found| ==>
        FindOperation(plan.operations, dependsOn[i]).Some?
        && found[i] == EvidenceFor(events, FindOperation(plan.operations, dependsOn[i]).value)
  {
    hide EvidenceFor, FindOperation;
    if dependsOn != [] {
      if found != [] {
        DependenciesMean(plan, events, dependsOn[1..], found[1..]);
        assert found == [found[0]] + found[1..];
        assert forall i :: 0 < i < |found| ==> found[i] == found[1..][i - 1];
        assert forall i :: 0 < i < |dependsOn| ==> dependsOn[i] == dependsOn[1..][i - 1];
      }
    }
  }

  /** What a provider is shown: for its operation and for each dependency in order, the receipts and observations that
      the plan's lawful history counts for it. */
  lemma ContextMeans(plan: Plan, o: Operation, events: History, context: ProviderContext)
    requires Lawful(plan, Scoped(events, plan.planId))
    ensures EvidenceContext(plan, o, events) == Ok(context) <==>
      && Shows(plan, events, o, context.own)
      && |context.dependencies| == |o.dependsOn|
      && forall i :: 0 <= i < |o.dependsOn| ==>
        FindOperation(plan.operations, o.dependsOn[i]).Some?
        && Shows(plan, events, FindOperation(plan.operations, o.dependsOn[i]).value, context.dependencies[i])
  {
    hide Lawful, EvidenceFor, FindOperation, Shows, DependencyEvidence;
    var scoped := Scoped(events, plan.planId);
    DependenciesMean(plan, scoped, o.dependsOn, context.dependencies);
    forall p, e ensures Shows(plan, events, p, e) <==> e == EvidenceFor(scoped, p) {
      ShowsMeans(plan, events, p, e);
    }
    if EvidenceContext(plan, o, events).Ok? {
      var found := DependencyEvidence(plan, scoped, o.dependsOn).value;
      DependenciesMean(plan, scoped, o.dependsOn, found);
    }
  }

  ghost predicate Shows(plan: Plan, events: History, o: Operation, e: OperationEvidence) {
    var f := FactsOf(Scoped(events, plan.planId), o.operationId);
    && e.operation == o && |e.receipts| == |f.receipts| && |e.observations| == |f.observations|
    && (forall i :: 0 <= i < |f.receipts| ==> e.receipts[i] == f.receipts[i].value)
    && (forall i :: 0 <= i < |f.observations| ==> e.observations[i] == (f.observations[i].status, f.observations[i].evidence))
  }

  lemma ShowsMeans(plan: Plan, events: History, o: Operation, e: OperationEvidence)
    requires Lawful(plan, Scoped(events, plan.planId))
    ensures Shows(plan, events, o, e) <==> e == EvidenceFor(Scoped(events, plan.planId), o)
  {
    hide Lawful, FactsOf;
    var scoped := Scoped(events, plan.planId);
    EvidenceIsFacts(plan, scoped, o);
    var f := FactsOf(scoped, o.operationId);
    if Shows(plan, events, o, e) {
      assert e.receipts == ReceiptValues(f.receipts) && e.observations == ObservedValues(f.observations);
    }
  }
}
