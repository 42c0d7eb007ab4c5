/** Content-addressed operations and plans: createOperation, createPlan and loadPlan. */
module PlanIdentity {
  import opened Texts
  import opened JsonData
  import opened ReleaseModel
  import opened Pairs
  import opened Utf8
  import opened Identity
  import opened Provider
  import opened Dag

  /** What the kernel computes identities and core evidence with. */
  datatype Kernel = Kernel(hash: (Text, Json) -> Result<Text>, core: CoreCodecs)

  /** The kernel: canonical JSON, framed, under the host's digest and NFC test. */
  function HashingKernel(nfc: Text -> bool, sha256: Bytes -> Text, core: CoreCodecs): Kernel {
    Kernel((domain, value) => HashCanonical(nfc, sha256, domain, value), core)
  }

  // ---- Hash domains and record keys, as UTF-16 code units ----

  const DEFINITION_ID: Text :=  // "definitionId"
    [100, 101, 102, 105, 110, 105, 116, 105, 111, 110, 73, 100]

  const INTENT_VERSION: Text :=  // "intentVersion"
    [105, 110, 116, 101, 110, 116, 86, 101, 114, 115, 105, 111, 110]

  const INTENT: Text :=  // "intent"
    [105, 110, 116, 101, 110, 116]

  const OPERATION_ID: Text :=  // "operationId"
    [111, 112, 101, 114, 97, 116, 105, 111, 110, 73, 100]

  const DEPENDS_ON: Text :=  // "dependsOn"
    [100, 101, 112, 101, 110, 100, 115, 79, 110]

  const FORMAT: Text :=  // "format"
    [102, 111, 114, 109, 97, 116]

  const BUNDLE_ID: Text :=  // "bundleId"
    [98, 117, 110, 100, 108, 101, 73, 100]

  const OPERATIONS: Text :=  // "operations"
    [111, 112, 101, 114, 97, 116, 105, 111, 110, 115]

  const JOURNAL_ID: Text :=  // "journalId"
    [106, 111, 117, 114, 110, 97, 108, 73, 100]

  const PLAN_DOMAIN: Text :=  // "ts-release/plan/1"
    [116, 115, 45, 114, 101, 108, 101, 97, 115, 101, 47, 112, 108, 97, 110, 47, 49]

  const OPERATION_DOMAIN: Text :=  // "ts-release/operation/1"
    [116, 115, 45, 114, 101, 108, 101, 97, 115, 101, 47, 111, 112, 101, 114, 97, 116, 105, 111, 110, 47, 49]

  const JOURNAL_DOMAIN: Text :=  // "ts-release/journal/1"
    [116, 115, 45, 114, 101, 108, 101, 97, 115, 101, 47, 106, 111, 117, 114, 110, 97, 108, 47, 49]

  // ---- The hashed values ----

  function Strings(ts: seq<Text>): seq<Json> {
    seq(|ts|, i requires 0 <= i < |ts| => String(ts[i]))
  }

  function OperationContent(definitionId: Text, intentVersion: Text, intent: Json): Json {
    Object([(DEFINITION_ID, String(definitionId)),
            (INTENT_VERSION, String(intentVersion)),
            (INTENT, intent)])
  }

  function OperationJson(o: Operation): Json {
    Object([(OPERATION_ID, String(o.operationId)),
            (DEFINITION_ID, String(o.definitionId)),
            (INTENT_VERSION, String(o.intentVersion)),
            (INTENT, o.intent),
            (DEPENDS_ON, Array(Strings(o.dependsOn)))])
  }

  function OperationsJson(os: seq<Operation>): seq<Json> {
    seq(|os|, i requires 0 <= i < |os| => OperationJson(os[i]))
  }

  function Keyed(os: seq<Operation>): seq<(Text, Operation)> {
    if os == [] then [] else [(os[0].operationId, os[0])] + Keyed(os[1..])
  }

  function Operations(ps: seq<(Text, Operation)>): seq<Operation> {
    if ps == [] then [] else [ps[0].1] + Operations(ps[1..])
  }

  /** Operations in identity order. */
  function SortOperations(os: seq<Operation>): seq<Operation> {
    Operations(SortPairs(Keyed(os)))
  }

  function PlanContent(bundleId: Text, sorted: seq<Operation>): seq<(Text, Json)> {
    [(FORMAT, String(PLAN_DOMAIN)),
     (BUNDLE_ID, String(bundleId)),
     (OPERATIONS, Array(OperationsJson(sorted)))]
  }

  function OperationIdOf(kernel: Kernel, o: Operation): Result<Text> {
    kernel.hash(OPERATION_DOMAIN, OperationContent(o.definitionId, o.intentVersion, o.intent))
  }

  /** The journal a plan binds: the one asked for, or the one its content names. */
  function JournalIdOf(kernel: Kernel, bundleId: Text, sorted: seq<Operation>, journalId: Option<Text>): Result<Text> {
    match journalId
    case Some(id) => Ok(id)
    case None => kernel.hash(JOURNAL_DOMAIN, Object(PlanContent(bundleId, sorted)))
  }

  /** The plan over these operations, with its identity. */
  function PlanOf(kernel: Kernel, bundleId: Text, operations: seq<Operation>, journalId: Option<Text>): Result<Plan> {
    var sorted := SortOperations(operations);
    match JournalIdOf(kernel, bundleId, sorted, journalId)
    case Fail(refusal) => Fail(refusal)
    case Ok(journal) =>
      var value := Object(PlanContent(bundleId, sorted) + [(JOURNAL_ID, String(journal))]);
      match kernel.hash(PLAN_DOMAIN, value)
      case Fail(refusal) => Fail(refusal)
      case Ok(planId) => Ok(Plan(planId, journal, bundleId, sorted))
  }

  function CreateOperation(kernel: Kernel, provider: ProviderDefinition, intent: Json, dependsOn: seq<Text>)
    : Result<Operation>
  {
    match provider.intentCodec.decode(intent)
    case None => Fail(InvalidData)
    case Some(decoded) =>
      var encoded := provider.intentCodec.encode(decoded);
      match kernel.hash(OPERATION_DOMAIN,
                 OperationContent(provider.definitionId, provider.intentVersion, encoded))
      case Fail(refusal) => Fail(refusal)
      case Ok(id) => Ok(Operation(id, provider.definitionId, provider.intentVersion, encoded, Sort(dependsOn)))
  }

  ghost predicate OwnIdentities(kernel: Kernel, operations: seq<Operation>) {
    forall i :: 0 <= i < |operations| ==> OperationIdOf(kernel, operations[i]) == Ok(operations[i].operationId)
  }

  method CreatePlan(kernel: Kernel, bundleId: Text, operations: seq<Operation>, journalId: Option<Text>)
    returns (r: Result<Plan>)
    ensures r.Ok? <==> ValidDag(operations) && OwnIdentities(kernel, operations)
                       && PlanOf(kernel, bundleId, operations, journalId).Ok?
    ensures r.Ok? ==> r == PlanOf(kernel, bundleId, operations, journalId)
  {
    var dag := ValidateDag(operations);
    if dag.Fail? {
      return Fail(dag.refusal);
    }
    var identities := CheckIdentities(kernel, operations);
    if identities.Fail? {
      return Fail(identities.refusal);
    }
    r := PlanOf(kernel, bundleId, operations, journalId);
  }

  method CheckIdentities(kernel: Kernel, operations: seq<Operation>) returns (r: Result<()>)
    ensures r.Ok? <==> OwnIdentities(kernel, operations)
  {
    for k := 0 to |operations|
      invariant forall i :: 0 <= i < k ==> OperationIdOf(kernel, operations[i]) == Ok(operations[i].operationId)
    {
      var expected := OperationIdOf(kernel, operations[k]);
      if expected.Fail? {
        return Fail(expected.refusal);
      }
      if expected.value != operations[k].operationId {
        return Fail(OperationIdentity);
      }
    }
    r := Ok(());
  }

  // ---- Loading ----

  ghost predicate DistinctProviders(providers: seq<ProviderDefinition>) {
    forall i, j :: 0 <= i < j < |providers| ==> providers[i].definitionId != providers[j].definitionId
  }

  /** The installed provider re-encodes the operation to the identity it carries. */
  predicate Rebuilds(kernel: Kernel, providers: seq<ProviderDefinition>, o: Operation) {
    var found := FindProvider(providers, o.definitionId);
    && found.Some?
    && found.value.intentVersion == o.intentVersion
    && (var rebuilt := CreateOperation(kernel, found.value, o.intent, o.dependsOn);
        rebuilt.Ok? && rebuilt.value.operationId == o.operationId)
  }

  /** Exactly the plans `loadPlan` admits. */
  ghost predicate Loads(kernel: Kernel, plan: Plan, providers: seq<ProviderDefinition>) {
    && DistinctProviders(providers)
    && ValidDag(plan.operations)
    && SortOperations(plan.operations) == plan.operations
    && (forall i :: 0 <= i < |plan.operations| ==> Rebuilds(kernel, providers, plan.operations[i]))
    && OwnIdentities(kernel, plan.operations)
    && PlanOf(kernel, plan.bundleId, plan.operations, Some(plan.journalId)) == Ok(plan)
    && (forall i :: 0 <= i < |providers| ==> providers[i].validatePlan(plan.operations))
  }

  method CheckDistinct(providers: seq<ProviderDefinition>) returns (distinct: bool)
    ensures distinct <==> DistinctProviders(providers)
  {
    var definitions: set<Text> := {};
    for k := 0 to |providers|
      invariant DistinctProviders(providers[..k])
      invariant forall id :: id in definitions <==> exists i :: 0 <= i < k && providers[i].definitionId == id
    {
      if providers[k].definitionId in definitions {
        return false;
      }
      definitions := definitions + {providers[k].definitionId};
    }
    assert providers[..|providers|] == providers;
    distinct := true;
  }

  method LoadPlan(kernel: Kernel, plan: Plan, providers: seq<ProviderDefinition>) returns (r: Result<Plan>)
    ensures r.Ok? <==> Loads(kernel, plan, providers)
    ensures r.Ok? ==> r.value == plan
  {
    var distinct := CheckDistinct(providers);
    if !distinct {
      return Fail(DuplicateProvider);
    }
    var dag := ValidateDag(plan.operations);
    if dag.Fail? {
      return Fail(dag.refusal);
    }
    if SortOperations(plan.operations) != plan.operations {
      return Fail(OperationOrder);
    }
    for k := 0 to |plan.operations|
      invariant forall i :: 0 <= i < k ==> Rebuilds(kernel, providers, plan.operations[i])
    {
      var o := plan.operations[k];
      var provider := FindProvider(providers, o.definitionId);
      if provider.None? || provider.value.intentVersion != o.intentVersion {
        return Fail(UnknownProviderCodec);
      }
      var rebuilt := CreateOperation(kernel, provider.value, o.intent, o.dependsOn);
      if rebuilt.Fail? {
        return Fail(rebuilt.refusal);
      }
      if rebuilt.value.operationId != o.operationId {
        return Fail(OperationIdentity);
      }
    }
    var rebuilt := CreatePlan(kernel, plan.bundleId, plan.operations, Some(plan.journalId));
    if rebuilt.Fail? {
      return Fail(rebuilt.refusal);
    }
    if rebuilt.value.planId != plan.planId {
      return Fail(PlanIdentity);
    }
    assert rebuilt.value == plan;
    for k := 0 to |providers|
      invariant forall i :: 0 <= i < k ==> providers[i].validatePlan(plan.operations)
    {
      if !providers[k].validatePlan(rebuilt.value.operations) {
        return Fail(PlanValidation);
      }
    }
    r := Ok(plan);
  }

  // ---- Identity laws ----

  lemma {:induction false} KeyedIsMap(os: seq<Operation>)
    ensures |Keyed(os)| == |os|
    ensures forall i :: 0 <= i < |os| ==> Keyed(os)[i] == (os[i].operationId, os[i])
  {
    if os != [] {
      KeyedIsMap(os[1..]);
    }
  }

  lemma {:induction false} KeyedBag(os: seq<Operation>, o: Operation)
    ensures multiset(Keyed(os))[(o.operationId, o)] == multiset(os)[o]
    ensures forall p :: p in Keyed(os) ==> p.0 == p.1.operationId
  {
    if os != [] {
      KeyedBag(os[1..], o);
      assert os == [os[0]] + os[1..];
    }
  }

  /** The plan and its identity do not depend on the order the operations were given in. */
  lemma PlanIgnoresOperationOrder(
    kernel: Kernel, bundleId: Text, operations: seq<Operation>, others: seq<Operation>, journalId: Option<Text>)
    requires UniqueIds(operations) && multiset(operations) == multiset(others)
    ensures PlanOf(kernel, bundleId, operations, journalId) == PlanOf(kernel, bundleId, others, journalId)
  {
    var a, b := Keyed(operations), Keyed(others);
    KeyedIsMap(operations);
    KeyedIsMap(others);
    forall p: (Text, Operation) ensures multiset(a)[p] == multiset(b)[p] {
      KeyedBag(operations, p.1);
      KeyedBag(others, p.1);
      if p.0 != p.1.operationId {
        assert p !in a && p !in b;
      }
    }
    assert multiset(a) == multiset(b);
    SortIgnoresOrder(a, b);
  }

  lemma SortIgnoresOrder<V>(ps: seq<(Text, V)>, qs: seq<(Text, V)>)
    requires DistinctKeys(ps) && multiset(ps) == multiset(qs)
    ensures SortPairs(ps) == SortPairs(qs)
  {
    DistinctKeysOfBag(ps, qs);
    SortAscends(ps);
    SortAscends(qs);
    forall q ensures q in SortPairs(ps) <==> q in SortPairs(qs) {
      SortMember(ps, q);
      SortMember(qs, q);
      assert q in multiset(ps) <==> q in multiset(qs);
    }
    AscendingUnique(SortPairs(ps), SortPairs(qs));
  }

  predicate KeysMatch(ps: seq<(Text, Operation)>) {
    forall i :: 0 <= i < |ps| ==> ps[i].0 == ps[i].1.operationId
  }

  lemma {:induction false} KeyedOperations(ps: seq<(Text, Operation)>)
    requires KeysMatch(ps)
    ensures Keyed(Operations(ps)) == ps
  {
    if ps != [] {
      KeyedOperations(ps[1..]);
      assert ps == [ps[0]] + ps[1..];
    }
  }

  lemma SortedKeysMatch(os: seq<Operation>)
    ensures KeysMatch(SortPairs(Keyed(os)))
    ensures forall i :: 0 <= i < |SortPairs(Keyed(os))| ==> SortPairs(Keyed(os))[i].1 in os
  {
    var sorted := SortPairs(Keyed(os));
    KeyedIsMap(os);
    forall i | 0 <= i < |sorted| ensures sorted[i].0 == sorted[i].1.operationId && sorted[i].1 in os {
      SortMember(Keyed(os), sorted[i]);
      var k :| 0 <= k < |Keyed(os)| && Keyed(os)[k] == sorted[i];
    }
  }

  /** Sorting a sorted plan changes nothing, so a created plan is its own rebuilding. */
  lemma SortOperationsIdempotent(os: seq<Operation>)
    requires UniqueIds(os)
    ensures SortOperations(SortOperations(os)) == SortOperations(os)
  {
    var sorted := SortPairs(Keyed(os));
    KeyedIsMap(os);
    SortedKeysMatch(os);
    SortAscends(Keyed(os));
    KeyedOperations(sorted);
    SortOfAscending(sorted);
  }

  lemma {:induction false} OperationsAt(ps: seq<(Text, Operation)>)
    ensures |Operations(ps)| == |ps|
    ensures forall i :: 0 <= i < |ps| ==> Operations(ps)[i] == ps[i].1
  {
    if ps != [] {
      OperationsAt(ps[1..]);
    }
  }

  /** Sorting permutes: the same operations, each once. */
  lemma SortOperationsPermutes(os: seq<Operation>)
    requires UniqueIds(os)
    ensures forall o :: o in SortOperations(os) <==> o in os
    ensures UniqueIds(SortOperations(os)) && |SortOperations(os)| == |os|
  {
    var sorted := SortPairs(Keyed(os));
    KeyedIsMap(os);
    SortedKeysMatch(os);
    SortAscends(Keyed(os));
    SortLength(Keyed(os));
    OperationsAt(sorted);
    forall o | o in os ensures o in SortOperations(os) {
      var k :| 0 <= k < |os| && os[k] == o;
      assert Keyed(os)[k] == (o.operationId, o);
      SortMember(Keyed(os), (o.operationId, o));
      var i :| 0 <= i < |sorted| && sorted[i] == (o.operationId, o);
      assert SortOperations(os)[i] == o;
    }
    forall i, j | 0 <= i < j < |sorted| ensures sorted[i].0 != sorted[j].0 {
      BeforeIrreflexive(sorted[i].0);
    }
  }

  lemma ValidDagPermutes(os: seq<Operation>)
    requires ValidDag(os)
    ensures ValidDag(SortOperations(os))
  {
    var sorted := SortOperations(os);
    SortOperationsPermutes(os);
    forall i | 0 <= i < |sorted| ensures sorted[i] in os && exists k :: 0 <= k < |os| && os[k] == sorted[i] {
      assert sorted[i] in sorted;
    }
    forall i, d | 0 <= i < |sorted| && d in sorted[i].dependsOn ensures Present(sorted, d) {
      var k :| 0 <= k < |os| && os[k] == sorted[i];
      assert Present(os, d);
      var m :| 0 <= m < |os| && os[m].operationId == d;
      assert os[m] in sorted;
      var j :| 0 <= j < |sorted| && sorted[j] == os[m];
      assert sorted[j].operationId == d;
    }
    var rank :| Ranks(os, rank);
    assert Ranks(sorted, rank);
  }

  /** The codec re-encodes what it wrote to the same value. */
  predicate StableIntent(provider: ProviderDefinition, intent: Json) {
    && provider.intentCodec.decode(intent).Some?
    && provider.intentCodec.encode(provider.intentCodec.decode(intent).value) == intent
  }

  /** An installed provider of the right version is stable on the operation's intent. */
  predicate Supported(providers: seq<ProviderDefinition>, o: Operation) {
    var provider := FindProvider(providers, o.definitionId);
    provider.Some? && provider.value.intentVersion == o.intentVersion && StableIntent(provider.value, o.intent)
  }

  /** Every plan createPlan makes is admitted again by loadPlan, unchanged, when the installed
      codecs are stable on its intents and the providers accept the whole plan. */
  lemma CreatedPlanLoads(
    kernel: Kernel, bundleId: Text, operations: seq<Operation>, journalId: Option<Text>,
    plan: Plan, providers: seq<ProviderDefinition>)
    requires ValidDag(operations) && OwnIdentities(kernel, operations)
    requires PlanOf(kernel, bundleId, operations, journalId) == Ok(plan)
    requires DistinctProviders(providers)
    requires forall i :: 0 <= i < |operations| ==> Supported(providers, operations[i])
    requires forall i :: 0 <= i < |providers| ==> providers[i].validatePlan(plan.operations)
    ensures Loads(kernel, plan, providers)
  {
    CreatedPlanRebuilds(kernel, bundleId, operations, journalId, plan);
    SortOperationsPermutes(operations);
    SupportedRebuild(kernel, operations, plan.operations, providers);
  }

  lemma SupportedRebuild(
    kernel: Kernel, operations: seq<Operation>, sorted: seq<Operation>, providers: seq<ProviderDefinition>)
    requires OwnIdentities(kernel, operations)
    requires forall i :: 0 <= i < |operations| ==> Supported(providers, operations[i])
    requires forall o :: o in sorted ==> o in operations
    ensures OwnIdentities(kernel, sorted)
    ensures forall i :: 0 <= i < |sorted| ==> Rebuilds(kernel, providers, sorted[i])
  {
    forall i | 0 <= i < |sorted|
      ensures Rebuilds(kernel, providers, sorted[i])
      ensures OperationIdOf(kernel, sorted[i]) == Ok(sorted[i].operationId)
    {
      assert sorted[i] in operations;
      var k :| 0 <= k < |operations| && operations[k] == sorted[i];
      StableOperationRebuilds(kernel, providers, operations[k]);
    }
  }

  lemma CreatedPlanRebuilds(
    kernel: Kernel, bundleId: Text, operations: seq<Operation>, journalId: Option<Text>, plan: Plan)
    requires ValidDag(operations)
    requires PlanOf(kernel, bundleId, operations, journalId) == Ok(plan)
    ensures plan.operations == SortOperations(operations) == SortOperations(plan.operations)
    ensures ValidDag(plan.operations)
    ensures PlanOf(kernel, plan.bundleId, plan.operations, Some(plan.journalId)) == Ok(plan)
  {
    SortOperationsIdempotent(operations);
    ValidDagPermutes(operations);
  }

  lemma StableOperationRebuilds(kernel: Kernel, providers: seq<ProviderDefinition>, o: Operation)
    requires OperationIdOf(kernel, o) == Ok(o.operationId) && Supported(providers, o)
    ensures Rebuilds(kernel, providers, o)
  {
  }
}
