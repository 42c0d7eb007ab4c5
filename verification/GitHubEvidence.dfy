/** Binding a release to recorded facts, and classifying what the service reports about it. */
module GitHubEvidence {
  import opened Texts
  import opened JsonData
  import opened ReleaseModel
  import opened Pairs
  import opened Provider
  import opened Dag
  import opened GitHubGraph

  datatype Facts =
    | TagFacts(objectOid: Text, tag: Text, details: Text, targetOid: Text)
    | RefFacts(ref: Text, objectOid: Text, isTag: bool)
    | ReleaseFacts(releaseId: Text, tag: Text, title: Text, notes: Text, prerelease: bool, draft: bool, uploadUrl: Text)
    | AssetFacts(assetId: Text, storedName: Text, uploaded: bool, contentType: Text, bytes: nat, sha256: Option<Text>,
                 apiUrl: Text, downloadUrl: Text)

  datatype Parent = Parent(operationId: Text, targetCommit: Text, facts: Facts)

  datatype BoundScope = BoundScope(operation: Operation, targetCommit: Text, parents: seq<Parent>)

  /** A decoded receipt or a decoded Present observation. */
  datatype Recorded = Recorded(scope: BoundScope, facts: Facts)

  /** Native codecs and address comparisons. */
  datatype Native = Native(
    descriptors: Descriptors,
    receipt: Json -> Option<Recorded>,
    present: Json -> Option<Recorded>,
    encodeScope: BoundScope -> Text,
    sameDetails: (Text, Text) -> bool,
    refName: Text -> Text,
    uploadUrlOk: (Intent, Facts) -> bool,
    assetUrlsOk: (Intent, Facts, Text) -> bool)

  // ---- Binding: the recorded facts of a parent ----

  function ParentFrom(o: Operation, recorded: Option<Recorded>): Result<Parent> {
    match recorded
    case None => Fail(InvalidData)
    case Some(r) =>
      if r.scope.operation != o then Fail(ParentOperation) else Ok(Parent(o.operationId, r.scope.targetCommit, r.facts))
  }

  function ReceiptParents(n: Native, o: Operation, receipts: seq<Json>): Result<seq<Parent>> {
    if receipts == [] then Ok([])
    else
      match ReceiptParents(n, o, receipts[..|receipts| - 1])
      case Fail(refusal) => Fail(refusal)
      case Ok(prior) =>
        match ParentFrom(o, n.receipt(receipts[|receipts| - 1]))
        case Fail(refusal) => Fail(refusal)
        case Ok(p) => Ok(prior + [p])
  }

  function ObservedParents(n: Native, o: Operation, observations: seq<(ObservationStatus, Json)>): Result<seq<Parent>> {
    if observations == [] then Ok([])
    else
      match ObservedParents(n, o, observations[..|observations| - 1])
      case Fail(refusal) => Fail(refusal)
      case Ok(prior) =>
        var last := observations[|observations| - 1];
        if last.0 != Satisfied then Ok(prior)
        else
          match ParentFrom(o, n.present(last.1))
          case Fail(refusal) => Fail(refusal)
          case Ok(p) => Ok(prior + [p])
  }

  /** Every record of the parent's existence: its receipts, then its Satisfied observations. */
  function Candidates(n: Native, e: OperationEvidence): Result<seq<Parent>> {
    match ReceiptParents(n, e.operation, e.receipts)
    case Fail(refusal) => Fail(refusal)
    case Ok(received) =>
      match ObservedParents(n, e.operation, e.observations)
      case Fail(refusal) => Fail(refusal)
      case Ok(observed) => Ok(received + observed)
  }

  /** What must not differ between two records: publication, a digest learnt later and the download
      address are not identity. */
  function Stable(p: Parent): Parent {
    match p.facts
    case ReleaseFacts(_, _, _, _, _, _, _) => p.(facts := p.facts.(draft := false))
    case AssetFacts(_, _, _, _, _, _, _, _) => p.(facts := p.facts.(sha256 := None, downloadUrl := []))
    case _ => p
  }

  predicate IsPublic(p: Parent) {
    p.facts.ReleaseFacts? && !p.facts.draft
  }

  predicate HasDigest(p: Parent) {
    p.facts.AssetFacts? && p.facts.sha256.Some?
  }

  predicate OneParent(candidates: seq<Parent>) {
    forall i, j :: 0 <= i < |candidates| && 0 <= j < |candidates| ==> Stable(candidates[i]) == Stable(candidates[j])
  }

  predicate OneDigest(candidates: seq<Parent>) {
    forall i, j :: 0 <= i < |candidates| && 0 <= j < |candidates| && HasDigest(candidates[i]) && HasDigest(candidates[j])
      ==> candidates[i].facts.sha256 == candidates[j].facts.sha256
  }

  function LastWhere(candidates: seq<Parent>, wanted: Parent -> bool): (r: Option<Parent>)
    ensures r.Some? ==> r.value in candidates && wanted(r.value)
    ensures r.None? ==> forall p :: p in candidates ==> !wanted(p)
  {
    if candidates == [] then None
    else
      var last := candidates[|candidates| - 1];
      assert candidates == candidates[..|candidates| - 1] + [last];
      if wanted(last) then Some(last) else LastWhere(candidates[..|candidates| - 1], wanted)
  }

  /** The one record that speaks for the parent, if there is any. */
  function SelectedParent(n: Native, e: OperationEvidence): Result<Option<Parent>> {
    match Candidates(n, e)
    case Fail(refusal) => Fail(refusal)
    case Ok(candidates) =>
      if candidates == [] then Ok(None)
      else if !OneParent(candidates) then Fail(ParentEvidence)
      else if !OneDigest(candidates) then Fail(ParentDigest)
      else Ok(Some(
        match LastWhere(candidates, p => IsPublic(p))
        case Some(p) => p
        case None => match LastWhere(candidates, p => HasDigest(p)) case Some(p) => p case None => candidates[|candidates| - 1]))
  }

  /** A later record cannot erase recorded exposure or a known digest, and all records name one parent. */
  lemma SelectedSpeaksForAll(n: Native, e: OperationEvidence, p: Parent, c: Parent)
    requires SelectedParent(n, e) == Ok(Some(p)) && c in Candidates(n, e).value
    ensures p in Candidates(n, e).value && Stable(c) == Stable(p)
    ensures IsPublic(c) ==> IsPublic(p)
    ensures HasDigest(c) ==> p.facts.AssetFacts? && p.facts.sha256 == c.facts.sha256
  {
    hide Candidates, LastWhere;
    var candidates := Candidates(n, e).value;
    var i :| 0 <= i < |candidates| && candidates[i] == c;
    var j :| 0 <= j < |candidates| && candidates[j] == p;
    assert Stable(candidates[i]) == Stable(candidates[j]);
  }

  /** `selected`: the two loops that gather the candidates, and the choice. */
  method SelectParent(n: Native, e: OperationEvidence) returns (r: Result<Option<Parent>>)
    ensures r == SelectedParent(n, e)
  {
    hide Stable, LastWhere, ParentFrom;
    var received := GatherReceipts(n, e.operation, e.receipts);
    if received.Fail? {
      return Fail(received.refusal);
    }
    var observed := GatherObservations(n, e.operation, e.observations);
    if observed.Fail? {
      return Fail(observed.refusal);
    }
    var candidates := received.value + observed.value;
    if candidates == [] {
      return Ok(None);
    }
    if !OneParent(candidates) {
      return Fail(ParentEvidence);
    }
    if !OneDigest(candidates) {
      return Fail(ParentDigest);
    }
    var exposed, known := LastWhere(candidates, p => IsPublic(p)), LastWhere(candidates, p => HasDigest(p));
    r := Ok(Some(if exposed.Some? then exposed.value else if known.Some? then known.value else candidates[|candidates| - 1]));
  }

  method GatherReceipts(n: Native, o: Operation, receipts: seq<Json>) returns (r: Result<seq<Parent>>)
    ensures r == ReceiptParents(n, o, receipts)
  {
    hide ParentFrom;
    var candidates: seq<Parent> := [];
    for k := 0 to |receipts|
      invariant ReceiptParents(n, o, receipts[..k]) == Ok(candidates)
    {
      assert receipts[..k + 1][..k] == receipts[..k];
      var p := ParentFrom(o, n.receipt(receipts[k]));
      if p.Fail? {
        FailedReceipts(n, o, receipts, k + 1);
        return Fail(p.refusal);
      }
      candidates := candidates + [p.value];
    }
    assert receipts[..|receipts|] == receipts;
    r := Ok(candidates);
  }

  lemma {:induction false} FailedReceipts(n: Native, o: Operation, receipts: seq<Json>, k: nat)
    requires k <= |receipts| && ReceiptParents(n, o, receipts[..k]).Fail?
    ensures ReceiptParents(n, o, receipts) == ReceiptParents(n, o, receipts[..k])
    decreases |receipts| - k
  {
    if k < |receipts| {
      assert receipts[..k + 1][..k] == receipts[..k];
      FailedReceipts(n, o, receipts, k + 1);
    } else {
      assert receipts[..k] == receipts;
    }
  }

  method GatherObservations(n: Native, o: Operation, observations: seq<(ObservationStatus, Json)>) returns (r: Result<seq<Parent>>)
    ensures r == ObservedParents(n, o, observations)
  {
    hide ParentFrom;
    var candidates: seq<Parent> := [];
    for k := 0 to |observations|
      invariant ObservedParents(n, o, observations[..k]) == Ok(candidates)
    {
      assert observations[..k + 1][..k] == observations[..k];
      if observations[k].0 == Satisfied {
        var p := ParentFrom(o, n.present(observations[k].1));
        if p.Fail? {
          FailedObservations(n, o, observations, k + 1);
          return Fail(p.refusal);
        }
        candidates := candidates + [p.value];
      }
    }
    assert observations[..|observations|] == observations;
    r := Ok(candidates);
  }

  lemma {:induction false} FailedObservations(n: Native, o: Operation, observations: seq<(ObservationStatus, Json)>, k: nat)
    requires k <= |observations| && ObservedParents(n, o, observations[..k]).Fail?
    ensures ObservedParents(n, o, observations) == ObservedParents(n, o, observations[..k])
    decreases |observations| - k
  {
    if k < |observations| {
      assert observations[..k + 1][..k] == observations[..k];
      FailedObservations(n, o, observations, k + 1);
    } else {
      assert observations[..k] == observations;
    }
  }

  // ---- The scope of an operation ----

  function FindEvidence(dependencies: seq<OperationEvidence>, id: Text): (r: Option<OperationEvidence>)
    ensures r.Some? ==> r.value in dependencies && r.value.operation.operationId == id
  {
    if dependencies == [] then None
    else if dependencies[0].operation.operationId == id then Some(dependencies[0])
    else FindEvidence(dependencies[1..], id)
  }

  function BoundParent(n: Native, dependencies: seq<OperationEvidence>, id: Text): Result<Parent> {
    match FindEvidence(dependencies, id)
    case None => Fail(UndeclaredParent)
    case Some(e) =>
      match SelectedParent(n, e)
      case Fail(refusal) => Fail(refusal)
      case Ok(None) => Fail(ParentEvidence)
      case Ok(Some(p)) => Ok(p)
  }

  function BoundParents(n: Native, dependencies: seq<OperationEvidence>, ids: seq<Text>): (r: Result<seq<(Text, Parent)>>)
    ensures r.Ok? ==> |r.value| == |ids|
    ensures r.Ok? ==> forall i :: 0 <= i < |ids| ==> r.value[i].0 == ids[i]
    ensures r.Ok? ==> forall i :: 0 <= i < |ids| ==> BoundParent(n, dependencies, ids[i]) == Ok(r.value[i].1)
  {
    if ids == [] then Ok([])
    else
      match BoundParent(n, dependencies, ids[0])
      case Fail(refusal) => Fail(refusal)
      case Ok(first) =>
        match BoundParents(n, dependencies, ids[1..])
        case Fail(refusal) => Fail(refusal)
        case Ok(rest) => Ok([(ids[0], first)] + rest)
  }

  function Second(ps: seq<(Text, Parent)>): (r: seq<Parent>)
    ensures |r| == |ps| && forall i :: 0 <= i < |ps| ==> r[i] == ps[i].1
  {
    seq(|ps|, i requires 0 <= i < |ps| => ps[i].1)
  }

  /** The parents an intent binds: its draft or tag first, then its assets. */
  function BoundIds(intent: Intent): seq<Text> {
    match intent
    case Publish(_, draft, assets) => [draft] + Sort(assets)
    case _ => RequiredParents(intent)
  }

  function OwnCommit(intent: Intent): Text {
    match intent
    case LightweightTag(_, _, commit) => commit
    case AnnotatedTag(_, _, commit, _) => commit
    case Draft(_, _, ExistingTag(commit), _, _, _) => commit
    case _ => []
  }

  function BindScope(n: Native, o: Operation, dependencies: seq<OperationEvidence>): Result<BoundScope> {
    match n.descriptors.intentOf(o)
    case None => Fail(GraphDefinition)
    case Some(intent) =>
      match BoundParents(n, dependencies, BoundIds(intent))
      case Fail(refusal) => Fail(refusal)
      case Ok(parents) =>
        Ok(BoundScope(o, if parents == [] then OwnCommit(intent) else parents[0].1.targetCommit, Second(SortPairs(parents))))
  }

  function FindParent(parents: seq<Parent>, id: Text): (r: Option<Parent>)
    ensures r.Some? ==> r.value in parents && r.value.operationId == id
    ensures r.None? ==> forall p :: p in parents ==> p.operationId != id
  {
    if parents == [] then None
    else if parents[0].operationId == id then Some(parents[0])
    else FindParent(parents[1..], id)
  }

  /** `parentFacts(scope, id, "draft")`. */
  function DraftFacts(scope: BoundScope, id: Text): Result<Facts> {
    match FindParent(scope.parents, id)
    case None => Fail(ParentKind)
    case Some(p) => if p.facts.ReleaseFacts? then Ok(p.facts) else Fail(ParentKind)
  }

  lemma {:induction false} ReceiptParentIds(n: Native, o: Operation, receipts: seq<Json>)
    requires ReceiptParents(n, o, receipts).Ok?
    ensures forall p :: p in ReceiptParents(n, o, receipts).value ==> p.operationId == o.operationId
  {
    if receipts != [] {
      ReceiptParentIds(n, o, receipts[..|receipts| - 1]);
    }
  }

  lemma {:induction false} ObservedParentIds(n: Native, o: Operation, observations: seq<(ObservationStatus, Json)>)
    requires ObservedParents(n, o, observations).Ok?
    ensures forall p :: p in ObservedParents(n, o, observations).value ==> p.operationId == o.operationId
  {
    if observations != [] {
      ObservedParentIds(n, o, observations[..|observations| - 1]);
    }
  }

  lemma BoundParentId(n: Native, dependencies: seq<OperationEvidence>, id: Text)
    requires BoundParent(n, dependencies, id).Ok?
    ensures BoundParent(n, dependencies, id).value.operationId == id
  {
    hide ReceiptParents, ObservedParents, Stable, OneParent, OneDigest;
    var e := FindEvidence(dependencies, id).value;
    ReceiptParentIds(n, e.operation, e.receipts);
    ObservedParentIds(n, e.operation, e.observations);
  }

  /** What a scope holds under a parent's identity is the record selected for that parent. */
  lemma ScopeHoldsSelected(n: Native, o: Operation, dependencies: seq<OperationEvidence>, id: Text)
    requires BindScope(n, o, dependencies).Ok? && n.descriptors.intentOf(o).Some?
    requires id in BoundIds(n.descriptors.intentOf(o).value)
    ensures BoundParent(n, dependencies, id).Ok?
    ensures FindParent(BindScope(n, o, dependencies).value.parents, id) == Some(BoundParent(n, dependencies, id).value)
  {
    hide BoundParent, BoundIds, SortPairs, FindParent;
    var ids := BoundIds(n.descriptors.intentOf(o).value);
    var pairs := BoundParents(n, dependencies, ids).value;
    var sorted := SortPairs(pairs);
    var parents := BindScope(n, o, dependencies).value.parents;
    var i :| 0 <= i < |ids| && ids[i] == id;
    SortMember(pairs, pairs[i]);
    var k :| 0 <= k < |sorted| && sorted[k] == pairs[i];
    BoundParentId(n, dependencies, id);
    assert parents[k] == pairs[i].1 && parents[k] in parents;
    var found := FindParent(parents, id);
    assert found.Some?;
    var m :| 0 <= m < |parents| && parents[m] == found.value;
    SortMember(pairs, sorted[m]);
    var j :| 0 <= j < |pairs| && pairs[j] == sorted[m];
    BoundParentId(n, dependencies, ids[j]);
  }

  // ---- Matching facts to an intent ----

  function Matches(n: Native, scope: BoundScope, facts: Facts): Result<bool> {
    match n.descriptors.intentOf(scope.operation)
    case None => Fail(GraphDefinition)
    case Some(intent) =>
      if facts.ReleaseFacts? && !n.uploadUrlOk(intent, facts) then Ok(false)
      else if facts.AssetFacts? && !intent.Asset? then Ok(false)
      else
        match intent
        case AnnotatedTag(_, tag, commit, details) =>
          Ok(facts.TagFacts? && facts.tag == tag && n.sameDetails(facts.details, details) && facts.targetOid == commit)
        case LightweightTag(_, tag, commit) =>
          Ok(facts.RefFacts? && facts.ref == n.refName(tag) && !facts.isTag && facts.objectOid == commit)
        case AnnotatedRef(_, tag, id) => MatchesRef(n, scope, facts, tag, id)
        case Draft(_, tag, _, title, notes, prerelease) =>
          Ok(facts.ReleaseFacts? && facts.tag == tag && facts.title == title && facts.notes == notes
             && facts.prerelease == prerelease)
        case Asset(_, _, _, _, _, _) => MatchesAsset(n, scope, facts, intent)
        case Publish(_, draft, _) =>
          match DraftFacts(scope, draft)
          case Fail(refusal) => Fail(refusal)
          case Ok(parent) => Ok(facts.ReleaseFacts? && facts.(draft := true) == parent.(draft := true))
  }

  function MatchesRef(n: Native, scope: BoundScope, facts: Facts, tag: Text, id: Text): Result<bool> {
    if !facts.RefFacts? || facts.ref != n.refName(tag) || !facts.isTag then Ok(false)
    else
      match FindParent(scope.parents, id)
      case None => Fail(ParentKind)
      case Some(p) => if !p.facts.TagFacts? then Fail(ParentKind) else Ok(facts.objectOid == p.facts.objectOid)
  }

  function MatchesAsset(n: Native, scope: BoundScope, facts: Facts, intent: Intent): Result<bool>
    requires intent.Asset?
  {
    if !facts.AssetFacts? then Ok(false)
    else
      match DraftFacts(scope, intent.draftOperation)
      case Fail(refusal) => Fail(refusal)
      case Ok(draft) =>
        Ok(n.assetUrlsOk(intent, facts, draft.tag)
           && facts.storedName == intent.publicName && facts.uploaded && facts.contentType == intent.mediaType
           && facts.bytes == intent.size && (facts.sha256.None? || facts.sha256.value == intent.sha256))
  }

  // ---- Classification ----

  type RemoteFacts = f: Facts | f.AssetFacts? witness AssetFacts([], [], true, [], 0, None, [], [])

  datatype AssetEvidence = AssetEvidence(facts: RemoteFacts, downloaded: Option<Text>)

  datatype Evidence =
    | Present(scope: Text, facts: Facts, observedCommit: Option<Text>, downloaded: Option<Text>, assets: seq<AssetEvidence>)
    | Missing(scope: Text)
    | Unavailable(operationId: Text)

  function FindAsset(assets: seq<AssetEvidence>, name: Text): (r: Option<AssetEvidence>)
    ensures r.Some? ==> r.value in assets && r.value.facts.storedName == name
  {
    if assets == [] then None
    else if assets[0].facts.storedName == name then Some(assets[0])
    else FindAsset(assets[1..], name)
  }

  function AssetIds(assets: seq<AssetEvidence>): (r: seq<Text>)
    ensures |r| == |assets| && forall i :: 0 <= i < |r| ==> r[i] == assets[i].facts.assetId
  {
    seq(|assets|, i requires 0 <= i < |assets| => assets[i].facts.assetId)
  }

  function StoredNames(assets: seq<AssetEvidence>): (r: seq<Text>)
    ensures |r| == |assets| && forall i :: 0 <= i < |r| ==> r[i] == assets[i].facts.storedName
  {
    seq(|assets|, i requires 0 <= i < |assets| => assets[i].facts.storedName)
  }

  /** One selected asset against the complete enumeration. */
  function AssetVerdict(
      n: Native, scope: BoundScope, assets: seq<AssetEvidence>, dependencies: seq<OperationEvidence>, id: Text)
    : Result<ObservationStatus>
  {
    match FindEvidence(dependencies, id)
    case None => Fail(PublishDependency)
    case Some(dependency) =>
      match BindScope(n, dependency.operation, dependencies)
      case Fail(refusal) => Fail(refusal)
      case Ok(assetScope) =>
        var expected := n.descriptors.intentOf(dependency.operation);
        if expected.None? || !expected.value.Asset? then Fail(PublishDependency)
        else
          var actual, recorded := FindAsset(assets, expected.value.publicName), FindParent(scope.parents, id);
          if actual.None? || recorded.None? || !recorded.value.facts.AssetFacts?
             || actual.value.facts.assetId != recorded.value.facts.assetId then Ok(Conflict)
          else
            match Matches(n, assetScope, actual.value.facts)
            case Fail(refusal) => Fail(refusal)
            case Ok(false) => Ok(Conflict)
            case Ok(true) =>
              if actual.value.downloaded.Some? && actual.value.downloaded.value != expected.value.sha256 then Ok(Conflict)
              else if actual.value.facts.sha256.None? && actual.value.downloaded.None? then Ok(Inconclusive)
              else Ok(Satisfied)
  }

  /** The first refusal or conflict decides; otherwise one unknown digest leaves the whole open. */
  function AssetsVerdict(
      n: Native, scope: BoundScope, assets: seq<AssetEvidence>, dependencies: seq<OperationEvidence>, ids: seq<Text>,
      status: ObservationStatus)
    : Result<ObservationStatus>
  {
    if ids == [] then Ok(status)
    else
      match AssetVerdict(n, scope, assets, dependencies, ids[0])
      case Fail(refusal) => Fail(refusal)
      case Ok(verdict) =>
        if verdict == Conflict then Ok(Conflict)
        else AssetsVerdict(n, scope, assets, dependencies, ids[1..], if verdict == Inconclusive then Inconclusive else status)
  }

  function AssetsStatus(n: Native, scope: BoundScope, assets: seq<AssetEvidence>, dependencies: seq<OperationEvidence>)
    : Result<ObservationStatus>
  {
    match n.descriptors.intentOf(scope.operation)
    case Some(Publish(_, _, ids)) =>
      if |assets| != |ids| || !NoDuplicates(AssetIds(assets)) || !NoDuplicates(StoredNames(assets)) then Ok(Conflict)
      else AssetsVerdict(n, scope, assets, dependencies, ids, Satisfied)
    case _ => Fail(ObservationAssets)
  }

  /** `classifyAssets`. */
  method ClassifyAssets(n: Native, scope: BoundScope, assets: seq<AssetEvidence>, dependencies: seq<OperationEvidence>)
    returns (r: Result<ObservationStatus>)
    ensures r == AssetsStatus(n, scope, assets, dependencies)
  {
    hide AssetVerdict;
    var intent := n.descriptors.intentOf(scope.operation);
    if intent.None? || !intent.value.Publish? {
      return Fail(ObservationAssets);
    }
    var ids := intent.value.assetOperations;
    if |assets| != |ids| || !NoDuplicates(AssetIds(assets)) || !NoDuplicates(StoredNames(assets)) {
      return Ok(Conflict);
    }
    var status: ObservationStatus := Satisfied;
    assert ids[0..] == ids;
    for k := 0 to |ids|
      invariant AssetsVerdict(n, scope, assets, dependencies, ids, Satisfied)
             == AssetsVerdict(n, scope, assets, dependencies, ids[k..], status)
    {
      assert ids[k..][1..] == ids[k + 1..];
      var verdict := AssetVerdict(n, scope, assets, dependencies, ids[k]);
      if verdict.Fail? {
        return Fail(verdict.refusal);
      }
      if verdict.value == Conflict {
        return Ok(Conflict);
      }
      if verdict.value == Inconclusive {
        status := Inconclusive;
      }
    }
    r := Ok(status);
  }

  /** `classifyObservation`. */
  function ClassifyObservation(
      n: Native, o: Operation, evidence: Evidence, receipts: seq<Json>, dependencies: seq<OperationEvidence>)
    : Result<ObservationStatus>
  {
    match evidence
    case Unavailable(id) => if id != o.operationId then Fail(ObservationOperation) else Ok(Inconclusive)
    case Missing(text) =>
      (match BindScope(n, o, dependencies)
       case Fail(refusal) => Fail(refusal)
       case Ok(scope) =>
         if text != n.encodeScope(scope) then Fail(ObservationParent)
         else Ok(if receipts != [] then Pending else Absent))
    case Present(text, facts, observedCommit, downloaded, assets) =>
      match BindScope(n, o, dependencies)
      case Fail(refusal) => Fail(refusal)
      case Ok(scope) =>
        if text != n.encodeScope(scope) then Fail(ObservationParent)
        else
          match Matches(n, scope, facts)
          case Fail(refusal) => Fail(refusal)
          case Ok(false) => Ok(Conflict)
          case Ok(true) => ClassifyPresent(n, scope, facts, observedCommit, downloaded, assets, receipts, dependencies)
  }

  function ClassifyPresent(
      n: Native, scope: BoundScope, facts: Facts, observedCommit: Option<Text>, downloaded: Option<Text>,
      assets: seq<AssetEvidence>, receipts: seq<Json>, dependencies: seq<OperationEvidence>)
    : Result<ObservationStatus>
  {
    match n.descriptors.intentOf(scope.operation)
    case None => Fail(GraphDefinition)
    case Some(intent) =>
      if !intent.Publish? && assets != [] then Fail(ObservationAssets)
      else if observedCommit.Some? && observedCommit.value != scope.targetCommit then Ok(Conflict)
      else
        match intent
        case Asset(_, _, _, sha256, _, _) =>
          if !facts.AssetFacts? || (downloaded.Some? && downloaded.value != sha256) then Ok(Conflict)
          else Ok(if facts.sha256.Some? || downloaded.Some? then Satisfied else Inconclusive)
        case Draft(_, _, _, _, _, _) => Ok(if observedCommit != Some(scope.targetCommit) then Inconclusive else Satisfied)
        case Publish(_, _, _) =>
          if observedCommit != Some(scope.targetCommit) then Ok(Inconclusive)
          else
            (match AssetsStatus(n, scope, assets, dependencies)
             case Fail(refusal) => Fail(refusal)
             case Ok(status) =>
               if status != Satisfied then Ok(status)
               else if facts.ReleaseFacts? && facts.draft then Ok(if receipts != [] then Conflict else Absent)
               else Ok(Satisfied))
        case _ => Ok(Satisfied)
  }

  // ---- Completeness of a satisfied publication ----

  /** The k-th remote asset is the one this operation planned: its recorded identity, its planned name and
      length, and a known digest, on either side, equal to the planned one. */
  predicate Corresponds(n: Native, scope: BoundScope, assets: seq<AssetEvidence>, o: Operation, k: int) {
    var intent, recorded := n.descriptors.intentOf(o), FindParent(scope.parents, o.operationId);
    && 0 <= k < |assets| && intent.Some? && intent.value.Asset?
    && recorded.Some? && recorded.value.facts.AssetFacts?
    && (var remote := assets[k].facts;
        && remote.assetId == recorded.value.facts.assetId
        && remote.storedName == intent.value.publicName && remote.uploaded && remote.bytes == intent.value.size
        && (remote.sha256.Some? || assets[k].downloaded.Some?)
        && (remote.sha256.Some? ==> remote.sha256.value == intent.value.sha256)
        && (assets[k].downloaded.Some? ==> assets[k].downloaded.value == intent.value.sha256))
  }

  lemma {:induction false} EveryVerdictSatisfied(
      n: Native, scope: BoundScope, assets: seq<AssetEvidence>, dependencies: seq<OperationEvidence>, ids: seq<Text>,
      status: ObservationStatus, id: Text)
    requires AssetsVerdict(n, scope, assets, dependencies, ids, status) == Ok(Satisfied) && id in ids
    ensures AssetVerdict(n, scope, assets, dependencies, id) == Ok(Satisfied)
  {
    hide AssetVerdict;
    StatusNeverImproves(n, scope, assets, dependencies, ids[1..], Inconclusive);
    VerdictRange(n, scope, assets, dependencies, ids[0]);
    if id != ids[0] {
      var verdict := AssetVerdict(n, scope, assets, dependencies, ids[0]).value;
      EveryVerdictSatisfied(n, scope, assets, dependencies, ids[1..], status, id);
    }
  }

  lemma VerdictRange(n: Native, scope: BoundScope, assets: seq<AssetEvidence>, dependencies: seq<OperationEvidence>, id: Text)
    ensures var r := AssetVerdict(n, scope, assets, dependencies, id); r.Ok? ==> r.value in {Conflict, Inconclusive, Satisfied}
  {
  }

  lemma {:induction false} StatusNeverImproves(
      n: Native, scope: BoundScope, assets: seq<AssetEvidence>, dependencies: seq<OperationEvidence>, ids: seq<Text>,
      status: ObservationStatus)
    requires status == Inconclusive
    ensures AssetsVerdict(n, scope, assets, dependencies, ids, status) != Ok(Satisfied)
  {
    hide AssetVerdict;
    if ids != [] {
      StatusNeverImproves(n, scope, assets, dependencies, ids[1..], status);
    }
  }

  lemma SatisfiedVerdictCorresponds(
      n: Native, scope: BoundScope, assets: seq<AssetEvidence>, dependencies: seq<OperationEvidence>, o: Operation)
    returns (k: nat)
    requires AssetVerdict(n, scope, assets, dependencies, o.operationId) == Ok(Satisfied)
    requires FindEvidence(dependencies, o.operationId).Some? ==> FindEvidence(dependencies, o.operationId).value.operation == o
    ensures Corresponds(n, scope, assets, o, k)
  {
    hide BindScope, FindEvidence, DraftFacts;
    BoundOperation(n, o, dependencies);
    var expected := n.descriptors.intentOf(o).value;
    var actual := FindAsset(assets, expected.publicName).value;
    k :| 0 <= k < |assets| && assets[k] == actual;
  }

  lemma BoundOperation(n: Native, o: Operation, dependencies: seq<OperationEvidence>)
    ensures BindScope(n, o, dependencies).Ok? ==> BindScope(n, o, dependencies).value.operation == o
  {
  }

  /** Two lists of equal length without duplicates: if one lies in the other, they have the same elements. */
  lemma SameBySize(a: seq<Text>, b: seq<Text>)
    requires NoDuplicates(a) && NoDuplicates(b) && |a| == |b| && forall x :: x in a ==> x in b
    ensures forall y :: y in b ==> y in a
  {
    Elements(a);
    Elements(b);
    var inA, inB := set x | x in a, set y | y in b;
    assert inA <= inB;
    assert inB == inA + (inB - inA) && |inB - inA| == 0;
    assert inA == inB;
    assert forall y :: y in b ==> y in inB;
  }

  lemma {:induction false} Elements(a: seq<Text>)
    requires NoDuplicates(a)
    ensures |set x | x in a| == |a|
  {
    if a != [] {
      var rest := a[1..];
      Elements(rest);
      assert a == [a[0]] + rest;
      assert a[0] !in rest;
      assert (set x | x in a) == {a[0]} + (set x | x in rest);
    }
  }

  ghost predicate OfPlan(dependencies: seq<OperationEvidence>, operations: seq<Operation>) {
    forall e :: e in dependencies ==> e.operation in operations
  }

  lemma SameOperationById(operations: seq<Operation>, a: Operation, b: Operation)
    requires UniqueIds(operations) && a in operations && b in operations && a.operationId == b.operationId
    ensures a == b
  {
    var i :| 0 <= i < |operations| && operations[i] == a;
    var j :| 0 <= j < |operations| && operations[j] == b;
  }

  /** Of a satisfied enumeration: every planned asset of the draft has its remote asset. */
  lemma PlannedIsRemote(
      n: Native, operations: seq<Operation>, scope: BoundScope, dependencies: seq<OperationEvidence>,
      assets: seq<AssetEvidence>, o: Operation)
    returns (k: nat)
    requires GraphOk(n.descriptors, operations) && UniqueIds(operations) && OfPlan(dependencies, operations)
    requires PublishScope(n, operations, scope)
    requires AssetsStatus(n, scope, assets, dependencies) == Ok(Satisfied)
    requires PlannedAsset(n, operations, scope, o)
    ensures Corresponds(n, scope, assets, o, k)
  {
    hide GraphOk, Corresponds, AssetVerdict;
    var ids := n.descriptors.intentOf(scope.operation).value.assetOperations;
    PublishNamesEveryAsset(n.descriptors, operations, scope.operation, o.operationId);
    EveryVerdictSatisfied(n, scope, assets, dependencies, ids, Satisfied, o.operationId);
    var found := FindEvidence(dependencies, o.operationId);
    if found.Some? {
      SameOperationById(operations, found.value.operation, o);
    }
    k := SatisfiedVerdictCorresponds(n, scope, assets, dependencies, o);
  }

  /** The scope of a publication of this plan. */
  predicate PublishScope(n: Native, operations: seq<Operation>, scope: BoundScope) {
    && scope.operation in operations && n.descriptors.owns(scope.operation)
    && n.descriptors.intentOf(scope.operation).Some? && n.descriptors.intentOf(scope.operation).value.Publish?
  }

  /** An asset operation of the plan for the publication's draft. */
  predicate PlannedAsset(n: Native, operations: seq<Operation>, scope: BoundScope, o: Operation)
    requires PublishScope(n, operations, scope)
  {
    o in operations && n.descriptors.owns(o) && IsAssetOf(n.descriptors, o, n.descriptors.intentOf(scope.operation).value.draftOperation)
  }

  lemma PlannedOperation(n: Native, operations: seq<Operation>, scope: BoundScope, id: Text) returns (o: Operation)
    requires GraphOk(n.descriptors, operations) && PublishScope(n, operations, scope)
    requires id in n.descriptors.intentOf(scope.operation).value.assetOperations
    ensures PlannedAsset(n, operations, scope, o) && o.operationId == id
  {
    hide GraphOk;
    PublishNamesEveryAsset(n.descriptors, operations, scope.operation, id);
    o :| o in operations && n.descriptors.owns(o) && o.operationId == id
         && IsAssetOf(n.descriptors, o, n.descriptors.intentOf(scope.operation).value.draftOperation);
  }

  /** The public names of the selected assets, in the order they were selected. */
  lemma {:induction false} PlannedNames(
      n: Native, operations: seq<Operation>, scope: BoundScope, dependencies: seq<OperationEvidence>,
      assets: seq<AssetEvidence>, ids: seq<Text>)
    returns (names: seq<Text>)
    requires GraphOk(n.descriptors, operations) && UniqueIds(operations) && OfPlan(dependencies, operations)
    requires PublishScope(n, operations, scope) && NoDuplicates(ids)
    requires forall id :: id in ids ==> id in n.descriptors.intentOf(scope.operation).value.assetOperations
    requires AssetsStatus(n, scope, assets, dependencies) == Ok(Satisfied)
    ensures |names| == |ids| && NoDuplicates(names) && (forall x :: x in names ==> x in StoredNames(assets))
    ensures forall x :: x in names ==> exists o ::
      PlannedAsset(n, operations, scope, o) && o.operationId in ids && n.descriptors.intentOf(o).value.publicName == x
  {
    hide GraphOk, Corresponds, AssetsStatus;
    if ids == [] {
      names := [];
    } else {
      var rest := PlannedNames(n, operations, scope, dependencies, assets, ids[1..]);
      var o := PlannedOperation(n, operations, scope, ids[0]);
      var k := PlannedIsRemote(n, operations, scope, dependencies, assets, o);
      var name := n.descriptors.intentOf(o).value.publicName;
      StoredUnderName(n, scope, assets, o, k);
      names := [name] + rest;
      forall p | PlannedAsset(n, operations, scope, p) && n.descriptors.intentOf(p).value.publicName == name ensures p == o {
        AssetNamesDistinct(n.descriptors, operations, p, o, n.descriptors.intentOf(scope.operation).value.draftOperation);
      }
      assert ids[0] !in ids[1..];
      assert name !in rest;
    }
  }

  lemma StoredUnderName(n: Native, scope: BoundScope, assets: seq<AssetEvidence>, o: Operation, k: nat)
    requires Corresponds(n, scope, assets, o, k)
    ensures n.descriptors.intentOf(o).Some? && n.descriptors.intentOf(o).value.Asset?
    ensures k < |assets| && assets[k].facts.storedName == n.descriptors.intentOf(o).value.publicName
    ensures n.descriptors.intentOf(o).value.publicName in StoredNames(assets)
  {
    assert StoredNames(assets)[k] in StoredNames(assets);
  }

  lemma EnumerationShape(n: Native, scope: BoundScope, assets: seq<AssetEvidence>, dependencies: seq<OperationEvidence>)
    requires AssetsStatus(n, scope, assets, dependencies) == Ok(Satisfied)
    requires n.descriptors.intentOf(scope.operation).Some? && n.descriptors.intentOf(scope.operation).value.Publish?
    ensures |assets| == |n.descriptors.intentOf(scope.operation).value.assetOperations|
    ensures NoDuplicates(AssetIds(assets)) && NoDuplicates(StoredNames(assets))
  {
    hide AssetsVerdict, NoDuplicates;
  }

  /** Of a satisfied enumeration: every remote asset was planned. */
  lemma RemoteIsPlanned(
      n: Native, operations: seq<Operation>, scope: BoundScope, dependencies: seq<OperationEvidence>,
      assets: seq<AssetEvidence>, k: nat)
    returns (o: Operation)
    requires GraphOk(n.descriptors, operations) && UniqueIds(operations) && OfPlan(dependencies, operations)
    requires PublishScope(n, operations, scope)
    requires AssetsStatus(n, scope, assets, dependencies) == Ok(Satisfied) && k < |assets|
    ensures PlannedAsset(n, operations, scope, o) && Corresponds(n, scope, assets, o, k)
  {
    hide *;
    ScopeIsPublish(n, operations, scope);
    var ids := n.descriptors.intentOf(scope.operation).value.assetOperations;
    EnumerationShape(n, scope, assets, dependencies);
    PublishVerdict(n.descriptors, operations, scope.operation);
    var names := PlannedNames(n, operations, scope, dependencies, assets, ids);
    SameBySize(names, StoredNames(assets));
    var name := StoredNames(assets)[k];
    assert name in StoredNames(assets) && name in names;
    o := PlannedUnderName(n, operations, scope, ids, names, name);
    var m := PlannedIsRemote(n, operations, scope, dependencies, assets, o);
    StoredUnderName(n, scope, assets, o, m);
    AtMostOnce(StoredNames(assets), m, k);
  }

  lemma ScopeIsPublish(n: Native, operations: seq<Operation>, scope: BoundScope)
    requires PublishScope(n, operations, scope)
    ensures n.descriptors.intentOf(scope.operation).Some? && n.descriptors.intentOf(scope.operation).value.Publish?
    ensures scope.operation in operations && n.descriptors.owns(scope.operation)
  {
  }

  lemma AtMostOnce(ids: seq<Text>, i: nat, j: nat)
    requires NoDuplicates(ids) && i < |ids| && j < |ids| && ids[i] == ids[j]
    ensures i == j
  {
  }

  lemma PlannedUnderName(
      n: Native, operations: seq<Operation>, scope: BoundScope, ids: seq<Text>, names: seq<Text>, name: Text)
    returns (o: Operation)
    requires PublishScope(n, operations, scope) && name in names
    requires forall x :: x in names ==> exists o ::
      PlannedAsset(n, operations, scope, o) && o.operationId in ids && n.descriptors.intentOf(o).value.publicName == x
    ensures PlannedAsset(n, operations, scope, o)
    ensures n.descriptors.intentOf(o).Some? && n.descriptors.intentOf(o).value.Asset?
    ensures n.descriptors.intentOf(o).value.publicName == name
  {
    o :| PlannedAsset(n, operations, scope, o) && o.operationId in ids
         && n.descriptors.intentOf(o).value.publicName == name;
  }

  /** One-to-one: no remote asset serves two operations, and no operation has two. */
  lemma CorrespondenceIsOneToOne(
      n: Native, operations: seq<Operation>, scope: BoundScope, dependencies: seq<OperationEvidence>,
      assets: seq<AssetEvidence>, o: Operation, p: Operation, i: nat, j: nat)
    requires GraphOk(n.descriptors, operations) && UniqueIds(operations) && PublishScope(n, operations, scope)
    requires AssetsStatus(n, scope, assets, dependencies) == Ok(Satisfied)
    requires PlannedAsset(n, operations, scope, o) && PlannedAsset(n, operations, scope, p)
    requires Corresponds(n, scope, assets, o, i) && Corresponds(n, scope, assets, p, j)
    ensures o == p <==> i == j
  {
    hide GraphOk, AssetsVerdict, Corresponds;
    StoredUnderName(n, scope, assets, o, i);
    StoredUnderName(n, scope, assets, p, j);
    assert NoDuplicates(StoredNames(assets));
    assert StoredNames(assets)[i] == assets[i].facts.storedName && StoredNames(assets)[j] == assets[j].facts.storedName;
    if i == j {
      AssetNamesDistinct(n.descriptors, operations, o, p, n.descriptors.intentOf(scope.operation).value.draftOperation);
    }
  }

  /** These facts are the recorded draft, no longer a draft. */
  predicate IsPublishedDraft(n: Native, dependencies: seq<OperationEvidence>, draft: Text, facts: Facts) {
    var recorded := BoundParent(n, dependencies, draft);
    && recorded.Ok? && recorded.value.facts.ReleaseFacts? && facts.ReleaseFacts?
    && !facts.draft && facts.(draft := true) == recorded.value.facts.(draft := true)
  }

  lemma PublishedDraft(n: Native, scope: BoundScope, dependencies: seq<OperationEvidence>, draft: Text, facts: Facts)
    requires BoundParent(n, dependencies, draft).Ok?
    requires FindParent(scope.parents, draft) == Some(BoundParent(n, dependencies, draft).value)
    requires facts.ReleaseFacts? && !facts.draft && BoundParent(n, dependencies, draft).value.facts.ReleaseFacts?
    requires facts.(draft := true) == BoundParent(n, dependencies, draft).value.facts.(draft := true)
    ensures IsPublishedDraft(n, dependencies, draft, facts)
  {
    hide BoundParent, FindParent;
  }

  /** A publication observed as Satisfied is public, at the draft's commit, equal to the recorded draft apart
      from its exposure, and its enumeration is satisfied in the sense of the three lemmas above. */
  lemma SatisfiedPublication(
      n: Native, o: Operation, evidence: Evidence, receipts: seq<Json>, dependencies: seq<OperationEvidence>)
    requires n.descriptors.intentOf(o).Some? && n.descriptors.intentOf(o).value.Publish?
    requires ClassifyObservation(n, o, evidence, receipts, dependencies) == Ok(Satisfied)
    ensures evidence.Present? && BindScope(n, o, dependencies).Ok?
    ensures var scope := BindScope(n, o, dependencies).value;
      && scope.operation == o
      && AssetsStatus(n, scope, evidence.assets, dependencies) == Ok(Satisfied)
      && evidence.observedCommit == Some(scope.targetCommit)
      && IsPublishedDraft(n, dependencies, n.descriptors.intentOf(o).value.draftOperation, evidence.facts)
  {
    hide *;
    ObservationParts(n, o, evidence, receipts, dependencies);
    BoundOperation(n, o, dependencies);
    var draft, scope := n.descriptors.intentOf(o).value.draftOperation, BindScope(n, o, dependencies).value;
    DraftIsBound(n.descriptors.intentOf(o).value);
    ScopeHoldsSelected(n, o, dependencies, draft);
    PublishMatches(n, scope, evidence.facts);
    PresentPublication(n, scope, evidence, receipts, dependencies);
    PublishedDraft(n, scope, dependencies, draft, evidence.facts);
  }

  lemma DraftIsBound(intent: Intent)
    requires intent.Publish?
    ensures intent.draftOperation in BoundIds(intent)
  {
    assert BoundIds(intent)[0] == intent.draftOperation;
  }

  lemma ObservationParts(
      n: Native, o: Operation, evidence: Evidence, receipts: seq<Json>, dependencies: seq<OperationEvidence>)
    requires ClassifyObservation(n, o, evidence, receipts, dependencies) == Ok(Satisfied)
    ensures evidence.Present? && BindScope(n, o, dependencies).Ok?
    ensures Matches(n, BindScope(n, o, dependencies).value, evidence.facts) == Ok(true)
    ensures ClassifyPresent(n, BindScope(n, o, dependencies).value, evidence.facts, evidence.observedCommit, evidence.downloaded,
                            evidence.assets, receipts, dependencies) == Ok(Satisfied)
  {
    hide BindScope, Matches, ClassifyPresent;
  }

  lemma PublishMatches(n: Native, scope: BoundScope, facts: Facts)
    requires n.descriptors.intentOf(scope.operation).Some? && n.descriptors.intentOf(scope.operation).value.Publish?
    requires Matches(n, scope, facts) == Ok(true)
    ensures var draft := FindParent(scope.parents, n.descriptors.intentOf(scope.operation).value.draftOperation);
      facts.ReleaseFacts? && draft.Some? && draft.value.facts.ReleaseFacts?
      && facts.(draft := true) == draft.value.facts.(draft := true)
  {
    hide FindParent;
  }

  lemma PresentPublication(
      n: Native, scope: BoundScope, evidence: Evidence, receipts: seq<Json>, dependencies: seq<OperationEvidence>)
    requires evidence.Present?
    requires n.descriptors.intentOf(scope.operation).Some? && n.descriptors.intentOf(scope.operation).value.Publish?
    requires ClassifyPresent(n, scope, evidence.facts, evidence.observedCommit, evidence.downloaded, evidence.assets, receipts,
                             dependencies) == Ok(Satisfied)
    ensures AssetsStatus(n, scope, evidence.assets, dependencies) == Ok(Satisfied)
    ensures evidence.observedCommit == Some(scope.targetCommit) && !(evidence.facts.ReleaseFacts? && evidence.facts.draft)
  {
    hide AssetsStatus;
  }
}
