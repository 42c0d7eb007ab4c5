/** The durable release vocabulary: plans, requests and journal events. */
module ReleaseModel {
  import opened Texts
  import opened JsonData

  datatype Option<+T> = None | Some(value: T)

  datatype Transport = CoreHttp | CoreGit | OpaqueTransport

  datatype Replay = NoReplay | GitCas(ref: Text, expectedOld: Text, desiredNew: Text)

  datatype RequestFacts = RequestFacts(
    transport: Transport,
    endpoint: Text,
    verb: Text,
    headers: seq<(Text, Text)>,
    bodyDigest: Text,
    byteLength: Text,
    principal: Text,
    scope: Text,
    replay: Replay)

  datatype Operation = Operation(
    operationId: Text,
    definitionId: Text,
    intentVersion: Text,
    intent: Json,
    dependsOn: seq<Text>)

  datatype Plan = Plan(planId: Text, journalId: Text, bundleId: Text, operations: seq<Operation>)

  datatype ScopeKind = PublicationScope | PreparationScope

  datatype Status =
    | Unattempted | Satisfied | Conflict | Pending | Inconclusive | Absent | Rejected | Superseded

  type ObservationStatus = s: Status
    | s in {Satisfied, Conflict, Pending, Inconclusive, Absent} witness Satisfied

  type Completion = s: Status | s in {Satisfied, Pending} witness Satisfied

  type OperationStatus = s: Status | s != Absent witness Unattempted

  /** The lawful reasons for recording a dispatch. */
  datatype Basis =
    | Initial
    | NonCommit(dispatchIds: seq<Text>)
    | ProtectedReplay(dispatchIds: seq<Text>)
    | AcceptedRisk(decisionId: Text)

  datatype Started = Started(
    operationId: Text,
    dispatchId: Text,
    request: RequestFacts,
    fingerprint: Text,
    startedAt: int,
    basis: Basis)

  datatype Receipt = Receipt(dispatchId: Text, version: Text, completion: Completion, value: Json)

  datatype Rejection = Rejection(dispatchId: Text, proofVersion: Text, proof: Json)

  datatype EvidenceKind = Observation | DispatchError

  datatype Observed = Observed(
    operationId: Text,
    evidenceKind: EvidenceKind,
    dispatchId: Option<Text>,
    status: ObservationStatus,
    evidenceVersion: Text,
    evidence: Json,
    observedAt: int)

  datatype Risk = Risk(
    operationId: Text,
    decisionId: Text,
    fingerprint: Text,
    priorDispatchIds: seq<Text>,
    principal: Text,
    expiresAt: int)

  datatype Body =
    | DispatchStarted(start: Started)
    | ReceiptAccepted(receipt: Receipt)
    | DispatchRejectedBeforeCommit(rejection: Rejection)
    | ObservationRecorded(observation: Observed)
    | RiskAccepted(risk: Risk)
    | PlanSuperseded(reason: Text)

  datatype Event = Event(eventId: Text, journalId: Text, planId: Text, body: Body)

  type History = seq<Event>

  /** The refusal codes of the kernel's admission checks. */
  datatype Refusal =
    // Decision.ts
    | UnknownOperation | JournalEnvelope | DispatchTime | DuplicateDispatch | IllegalDispatch
    | UnknownDispatch | ContradictoryEvidence | DuplicateEvidence
    | RiskTime | SupersededDecision | RiskScope | DuplicateRisk
    | ObservationTime | DuplicateSupersession
    // Journal.ts and Provider.ts
    | PreparationSelected | InvalidData | RequestCorrespondence
    | UnassociatedReceipt | UnassociatedRejection
    | UnknownReceiptCodec | NativeEvidenceCanonical | ReceiptCorrespondence | ReceiptClassification
    | UnknownRejectionCodec | RejectionCorrespondence
    | DispatchErrorShape | UnknownErrorCodec | ObservationShape | UnknownObservationCodec
    | ErrorCorrespondence | ObservationClassification | MissingDependency
    // Plan.ts
    | DuplicateOperation | DuplicateDependency | DependencyOrder | CyclicPlan
    | OperationIdentity | PlanIdentity | OperationOrder | DuplicateProvider
    | UnknownProviderCodec | PlanValidation
    // Host.ts and Release.ts
    | JournalBinding | PublicationScopeCount | DuplicateScope | PreparationScopeShape
    | UnregisteredScope | SupersededPlanBinding | JournalRevision | RequestFingerprint
    | SupersededPlanHistory | EventIdConflict | JournalContention | HostTime
    | DispatchLimit | TransportPreparation | AuthorityRequired
    // Identity.ts
    | NoncanonicalString | InvalidString | InvalidJson
    // NativeJson.ts
    | JsonToken | JsonString | JsonDepth | DuplicateJsonKey | JsonColon | JsonSeparator | JsonInteger | JsonTrailingInput
    // TreeLayout.ts
    | LinkTraversesFile | LinkEscapesTree | LinkAbsent | LinkCycle | LinkNonportable
    // pypi
    | DistributionContent | DistributionMetadata
    // archives
    | ArchivePath | ArchiveEncoding | ZipHeader | ZipDirectory | ZipCentralHeader | ZipFileHeader | ZipFileBound
    | ZipFileFacts | ZipFileCrc | ZipDirectoryContent | ZipDirectorySize
    // github
    | GraphDefinition | GraphDependency | AnnotatedParent | DraftTag | DraftParent | DuplicateAsset | CompleteAssets
    | DuplicateCoordinate | UndeclaredParent | ParentEvidence | ParentOperation | ParentDigest | ParentKind
    | ObservationOperation | ObservationParent | ObservationAssets | PublishDependency
    | TarBound | TarEnd | TarNumber | TarChecksum | TarTruncated | TarExtension | TarPax | TarEntryKind
    // The supplied decision machine may refuse for reasons of its own.
    | MachineRefusal

  datatype Result<+T> = Ok(value: T) | Fail(refusal: Refusal)

  /** `plan.operations.find((item) => item.operationId === id)`. */
  function FindOperation(operations: seq<Operation>, id: Text): (r: Option<Operation>)
    ensures r.Some? ==> r.value in operations && r.value.operationId == id
    ensures r.None? ==> forall o :: o in operations ==> o.operationId != id
  {
    if operations == [] then None
    else if operations[0].operationId == id then Some(operations[0])
    else FindOperation(operations[1..], id)
  }

  /** `snapshot.events.filter((item) => item.planId === plan.planId)`. */
  function Scoped(events: History, planId: Text): (r: History)
    ensures forall e :: e in r <==> e in events && e.planId == planId
  {
    if events == [] then []
    else
      var prior := Scoped(events[..|events| - 1], planId);
      var last := events[|events| - 1];
      assert events == events[..|events| - 1] + [last];
      if last.planId == planId then prior + [last] else prior
  }

  lemma ScopedSnoc(events: History, e: Event, planId: Text)
    ensures Scoped(events + [e], planId)
         == if e.planId == planId then Scoped(events, planId) + [e] else Scoped(events, planId)
  {
    assert (events + [e])[..|events|] == events;
  }

  function SupersededIn(events: History): bool {
    exists i :: 0 <= i < |events| && events[i].body.PlanSuperseded?
  }
}
