/** Provider contracts as pure callbacks, and the evidence a history gives them. */
module Provider {
  import opened Texts
  import opened JsonData
  import opened ReleaseModel
  import opened Decision
  import opened HistoryLaws

  /** A native codec: decoding may refuse, encoding is total on decoded values. */
  datatype Codec = Codec(decode: Json -> Option<Json>, encode: Json -> Json)

  datatype OperationEvidence = OperationEvidence(
    operation: Operation,
    receipts: seq<Json>,
    observations: seq<(ObservationStatus, Json)>)

  datatype ProviderContext = ProviderContext(own: OperationEvidence, dependencies: seq<OperationEvidence>)

  datatype FailureBoundary = FailureBoundary(
    version: Text,
    codec: Codec,
    corresponds: (Operation, RequestFacts, Json) -> bool)

  datatype ObservationBoundary = ObservationBoundary(
    version: Text,
    codec: Codec,
    classify: (Operation, Json, seq<Json>, ProviderContext) -> ObservationStatus)

  /** An absent `requestCorresponds` or `validatePlan` is one that always agrees. */
  datatype ProviderDefinition = ProviderDefinition(
    definitionId: Text,
    intentVersion: Text,
    intentCodec: Codec,
    validatePlan: seq<Operation> -> bool,
    requestCorresponds: (Operation, RequestFacts, ProviderContext) -> bool,
    receiptVersion: Text,
    receiptCodec: Codec,
    receiptCorresponds: (Operation, RequestFacts, Json) -> bool,
    classifyReceipt: (Operation, RequestFacts, Json) -> Completion,
    dispatchError: Option<FailureBoundary>,
    rejection: Option<FailureBoundary>,
    observation: Option<ObservationBoundary>)

  /** `providers.find((item) => item.definitionId === id)`. */
  function FindProvider(providers: seq<ProviderDefinition>, id: Text): (r: Option<ProviderDefinition>)
    ensures r.Some? ==> r.value in providers && r.value.definitionId == id
    ensures r.None? ==> forall p :: p in providers ==> p.definitionId != id
  {
    if providers == [] then None
    else if providers[0].definitionId == id then Some(providers[0])
    else FindProvider(providers[1..], id)
  }

  /** Evidence must decode and be its own exact native encoding. */
  function NativeEvidence(codec: Codec, input: Json): Result<Json> {
    match codec.decode(input)
    case None => Fail(InvalidData)
    case Some(value) => if codec.encode(value) != input then Fail(NativeEvidenceCanonical) else Ok(value)
  }

  function StartSet(events: History, operationId: Text): set<Text> {
    set i | 0 <= i < |events| && events[i].body.DispatchStarted? && events[i].body.start.operationId == operationId
      :: events[i].body.start.dispatchId
  }

  function ReceiptsOf(events: History, ids: set<Text>): seq<Json> {
    if events == [] then []
    else
      var prior, body := ReceiptsOf(events[..|events| - 1], ids), events[|events| - 1].body;
      if body.ReceiptAccepted? && body.receipt.dispatchId in ids then prior + [body.receipt.value] else prior
  }

  function ObservationsOf(events: History, operationId: Text): seq<(ObservationStatus, Json)> {
    if events == [] then []
    else
      var prior, body := ObservationsOf(events[..|events| - 1], operationId), events[|events| - 1].body;
      if body.ObservationRecorded? && body.observation.operationId == operationId
      then prior + [(body.observation.status, body.observation.evidence)] else prior
  }

  function EvidenceFor(events: History, operation: Operation): OperationEvidence {
    OperationEvidence(
      operation,
      ReceiptsOf(events, StartSet(events, operation.operationId)),
      ObservationsOf(events, operation.operationId))
  }

  function DependencyEvidence(plan: Plan, events: History, dependsOn: seq<Text>): Result<seq<OperationEvidence>> {
    if dependsOn == [] then Ok([])
    else
      match FindOperation(plan.operations, dependsOn[0])
      case None => Fail(MissingDependency)
      case Some(dependency) =>
        match DependencyEvidence(plan, events, dependsOn[1..])
        case Fail(refusal) => Fail(refusal)
        case Ok(rest) => Ok([EvidenceFor(events, dependency)] + rest)
  }

  /** A projection of the plan's own events in the given history. */
  function EvidenceContext(plan: Plan, operation: Operation, history: History): Result<ProviderContext> {
    var events := Scoped(history, plan.planId);
    match DependencyEvidence(plan, events, operation.dependsOn)
    case Fail(refusal) => Fail(refusal)
    case Ok(dependencies) => Ok(ProviderContext(EvidenceFor(events, operation), dependencies))
  }

  function AssertRequestCorresponds(
      provider: ProviderDefinition, operation: Operation, request: RequestFacts, context: ProviderContext): Result<()>
  {
    if provider.requestCorresponds(operation, request, context) then Ok(()) else Fail(RequestCorrespondence)
  }

  /** The kernel's own error evidence, admitted for every provider. */
  datatype CoreCodecs = CoreCodecs(dispatchError: Codec, undecodableReceipt: Codec)

  const CORE_DISPATCH_ERROR: Text :=  // "core-dispatch-error/1"
    [99, 111, 114, 101, 45, 100, 105, 115, 112, 97, 116, 99, 104, 45, 101, 114, 114, 111, 114, 47, 49]

  const CORE_UNDECODABLE_RECEIPT: Text :=  // "core-undecodable-receipt/1"
    [99, 111, 114, 101, 45, 117, 110, 100, 101, 99, 111, 100, 97, 98, 108, 101, 45, 114, 101, 99, 101, 105, 112, 116, 47, 49]

  predicate IsCoreErrorVersion(version: Text) {
    version == CORE_DISPATCH_ERROR || version == CORE_UNDECODABLE_RECEIPT
  }

  function ErrorCodec(core: CoreCodecs, provider: ProviderDefinition, version: Text): Option<Codec> {
    if version == CORE_DISPATCH_ERROR then Some(core.dispatchError)
    else if version == CORE_UNDECODABLE_RECEIPT then Some(core.undecodableReceipt)
    else if provider.dispatchError.Some? && provider.dispatchError.value.version == version
      then Some(provider.dispatchError.value.codec)
    else None
  }

  function DecodeObservationEvidence(core: CoreCodecs, provider: ProviderDefinition, o: Observed): Result<Json> {
    if o.evidenceKind == DispatchError then
      if o.dispatchId.None? || o.dispatchId.value == [] || o.status != Inconclusive then Fail(DispatchErrorShape)
      else
        match ErrorCodec(core, provider, o.evidenceVersion)
        case None => Fail(UnknownErrorCodec)
        case Some(codec) => NativeEvidence(codec, o.evidence)
    else if o.dispatchId.Some? then Fail(ObservationShape)
    else if provider.observation.None? || provider.observation.value.version != o.evidenceVersion
      then Fail(UnknownObservationCodec)
    else NativeEvidence(provider.observation.value.codec, o.evidence)
  }

  // ---- The projections agree on lawful histories ----

  function ReceiptValues(receipts: seq<Receipt>): seq<Json> {
    seq(|receipts|, i requires 0 <= i < |receipts| => receipts[i].value)
  }

  function ObservedValues(observations: seq<Observed>): seq<(ObservationStatus, Json)> {
    seq(|observations|, i requires 0 <= i < |observations| => (observations[i].status, observations[i].evidence))
  }

  lemma StartSetIsDispatched(events: History, operationId: Text, d: Text)
    ensures d in StartSet(events, operationId) <==> Dispatched(FactsOf(events, operationId).starts, d)
  {
    StartsRecorded(events, operationId);
    var starts := FactsOf(events, operationId).starts;
    if Dispatched(starts, d) {
      var i :| 0 <= i < |starts| && starts[i].dispatchId == d;
      assert starts[i] in starts;
      var k :| 0 <= k < |events| && events[k].body == DispatchStarted(starts[i]);
    }
    if d in StartSet(events, operationId) {
      var k :| 0 <= k < |events| && events[k].body.DispatchStarted?
               && events[k].body.start.operationId == operationId && events[k].body.start.dispatchId == d;
      assert events[k].body == DispatchStarted(events[k].body.start);
      assert events[k].body.start in starts;
    }
  }

  /** The receipts already recorded do not depend on which later starts are known. */
  lemma {:induction false} ReceiptsIgnoreLaterStarts(plan: Plan, events: History, operationId: Text, ids: set<Text>)
    requires Lawful(plan, events)
    requires forall d :: HasStart(events, d) ==> (d in ids <==> d in StartSet(events, operationId))
    ensures ReceiptsOf(events, ids) == ReceiptValues(FactsOf(events, operationId).receipts)
  {
    if events != [] {
      var prior, last := events[..|events| - 1], events[|events| - 1];
      assert events == prior + [last];
      forall d | HasStart(prior, d) ensures d in ids <==> d in StartSet(prior, operationId) {
        HasStartSnoc(prior, last, d);
        StartSetIsDispatched(prior, operationId, d);
        StartSetIsDispatched(events, operationId, d);
        AgreeAtStart(plan, prior, last, operationId, d);
      }
      ReceiptsIgnoreLaterStarts(plan, prior, operationId, ids);
      if last.body.ReceiptAccepted? {
        StartSetIsDispatched(prior, operationId, last.body.receipt.dispatchId);
      }
    }
  }

  lemma AgreeAtStart(plan: Plan, prior: History, last: Event, operationId: Text, d: Text)
    requires Admissible(plan, prior, last) && HasStart(prior, d)
    ensures Dispatched(FactsOf(prior + [last], operationId).starts, d) <==> Dispatched(FactsOf(prior, operationId).starts, d)
  {
    FactsSnoc(prior, last, operationId);
    if last.body.DispatchStarted? {
      DispatchedSnoc(FactsOf(prior, operationId).starts, last.body.start, d);
      var status := StartWasDecided(plan, prior, last);
    }
  }

  lemma {:induction false} ObservationsAgree(events: History, operationId: Text)
    ensures ObservationsOf(events, operationId) == ObservedValues(FactsOf(events, operationId).observations)
  {
    if events != [] {
      ObservationsAgree(events[..|events| - 1], operationId);
    }
  }

  /** What providers see is what the decision laws count: the raw receipts and observations of
      an operation are exactly its facts, in order. */
  lemma EvidenceIsFacts(plan: Plan, events: History, operation: Operation)
    requires Lawful(plan, events)
    ensures var f := FactsOf(events, operation.operationId);
      EvidenceFor(events, operation)
      == OperationEvidence(operation, ReceiptValues(f.receipts), ObservedValues(f.observations))
  {
    ReceiptsIgnoreLaterStarts(plan, events, operation.operationId, StartSet(events, operation.operationId));
    ObservationsAgree(events, operation.operationId);
  }
}
