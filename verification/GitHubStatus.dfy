/** What each classification of a release observation means, for every kind of operation. */
module GitHubStatus {
  import opened Texts
  import opened JsonData
  import opened ReleaseModel
  import opened Pairs
  import opened Provider
  import opened GitHubGraph
  import opened GitHubEvidence

  // ---- The bound scope ----

  /** The commit an operation is about: its own, or the one of the parent it builds on. */
  ghost predicate CommitIs(n: Native, intent: Intent, dependencies: seq<OperationEvidence>, commit: Text) {
    match intent
    case LightweightTag(_, _, own) => commit == own
    case AnnotatedTag(_, _, own, _) => commit == own
    case AnnotatedRef(_, _, id) => exists p :: BoundParent(n, dependencies, id) == Ok(p) && p.targetCommit == commit
    case Draft(_, _, ExistingTag(own), _, _, _) => commit == own
    case Draft(_, _, ManagedTag(id), _, _, _) => exists p :: BoundParent(n, dependencies, id) == Ok(p) && p.targetCommit == commit
    case Asset(_, draft, _, _, _, _) => exists p :: BoundParent(n, dependencies, draft) == Ok(p) && p.targetCommit == commit
    case Publish(_, draft, _) => exists p :: BoundParent(n, dependencies, draft) == Ok(p) && p.targetCommit == commit
  }

  ghost predicate Binds(intent: Intent, id: Text) {
    match intent
    case AnnotatedRef(_, _, tag) => id == tag
    case Draft(_, _, ManagedTag(tag), _, _, _) => id == tag
    case Asset(_, draft, _, _, _, _) => id == draft
    case Publish(_, draft, assets) => id == draft || id in assets
    case _ => false
  }

  /** A bound scope is about its operation's commit and holds exactly the records of the parents it needs. */
  lemma ScopeMeans(n: Native, o: Operation, dependencies: seq<OperationEvidence>, scope: BoundScope, intent: Intent)
    requires BindScope(n, o, dependencies) == Ok(scope) && n.descriptors.intentOf(o) == Some(intent)
    ensures scope.operation == o && CommitIs(n, intent, dependencies, scope.targetCommit)
    ensures forall p :: p in scope.parents <==> exists id :: Binds(intent, id) && BoundParent(n, dependencies, id) == Ok(p)
  {
    hide BoundParent, SortPairs, Sort;
    var ids := BoundIds(intent);
    BindsMeans(intent);
    var pairs := BoundParents(n, dependencies, ids).value;
    var sorted := SortPairs(pairs);
    forall p ensures p in scope.parents <==> exists id :: Binds(intent, id) && BoundParent(n, dependencies, id) == Ok(p) {
      if p in scope.parents {
        var k :| 0 <= k < |sorted| && sorted[k].1 == p;
        SortMember(pairs, sorted[k]);
        var i :| 0 <= i < |pairs| && pairs[i] == sorted[k];
        assert Binds(intent, ids[i]);
      }
      if id :| Binds(intent, id) && BoundParent(n, dependencies, id) == Ok(p) {
        var i :| 0 <= i < |ids| && ids[i] == id;
        SortMember(pairs, pairs[i]);
        var k :| 0 <= k < |sorted| && sorted[k] == pairs[i];
        assert scope.parents[k] == p;
      }
    }
    assert pairs != [] ==> BoundParent(n, dependencies, ids[0]) == Ok(pairs[0].1);
  }

  lemma BindsMeans(intent: Intent)
    ensures forall id :: Binds(intent, id) <==> id in BoundIds(intent)
    ensures intent.Publish? ==> BoundIds(intent)[0] == intent.draftOperation
  {
    if intent.Publish? {
      forall id ensures id in Sort(intent.assetOperations) <==> id in intent.assetOperations {
        assert id in multiset(Sort(intent.assetOperations)) <==> id in multiset(intent.assetOperations);
      }
    }
  }

  // ---- Facts that agree with what was intended ----

  ghost predicate ParentFactsAre(scope: BoundScope, id: Text, facts: Facts) {
    exists p :: FindParent(scope.parents, id) == Some(p) && p.facts == facts
  }

  ghost predicate DraftIs(scope: BoundScope, id: Text, facts: Facts) {
    facts.ReleaseFacts? && ParentFactsAre(scope, id, facts)
  }

  /** The uploaded file has the planned name, type and length, at the addresses of its release. */
  ghost predicate AssetAgrees(n: Native, scope: BoundScope, intent: Intent, facts: Facts)
    requires intent.Asset?
  {
    && facts.AssetFacts? && facts.uploaded
    && facts.storedName == intent.publicName && facts.contentType == intent.mediaType && facts.bytes == intent.size
    && exists draft :: DraftIs(scope, intent.draftOperation, draft) && n.assetUrlsOk(intent, facts, draft.tag)
  }

  /** The digests known of a file: the one the service reports, and the one of a download. */
  function KnownDigests(facts: Facts, downloaded: Option<Text>): set<Text> {
    (if facts.AssetFacts? && facts.sha256.Some? then {facts.sha256.value} else {})
    + (if downloaded.Some? then {downloaded.value} else {})
  }

  /** The release is the recorded draft, apart from having been published. */
  ghost predicate ReleaseAgrees(n: Native, scope: BoundScope, intent: Intent, facts: Facts)
    requires intent.Publish?
  {
    && facts.ReleaseFacts? && n.uploadUrlOk(intent, facts)
    && exists draft :: DraftIs(scope, intent.draftOperation, draft) && draft == facts.(draft := draft.draft)
  }

  /** The other kinds: each intended property is the observed one. */
  ghost predicate TagOrDraftAgrees(n: Native, scope: BoundScope, intent: Intent, facts: Facts)
    requires !intent.Asset? && !intent.Publish?
  {
    match intent
    case AnnotatedTag(_, tag, commit, details) =>
      facts.TagFacts? && facts.tag == tag && facts.targetOid == commit && n.sameDetails(facts.details, details)
    case LightweightTag(_, tag, commit) =>
      facts.RefFacts? && facts.ref == n.refName(tag) && facts.objectOid == commit && !facts.isTag
    case AnnotatedRef(_, tag, id) =>
      && facts.RefFacts? && facts.ref == n.refName(tag) && facts.isTag
      && exists tagged: Facts :: tagged.TagFacts? && ParentFactsAre(scope, id, tagged) && tagged.objectOid == facts.objectOid
    case Draft(_, tag, _, title, notes, prerelease) =>
      && facts.ReleaseFacts? && n.uploadUrlOk(intent, facts)
      && facts.tag == tag && facts.title == title && facts.notes == notes && facts.prerelease == prerelease
  }

  /** The parents that matching looks at are recorded with facts of their kind. */
  ghost predicate ParentsRecorded(scope: BoundScope, intent: Intent) {
    match intent
    case AnnotatedRef(_, _, id) => exists tagged: Facts :: tagged.TagFacts? && ParentFactsAre(scope, id, tagged)
    case Asset(_, draft, _, _, _, _) => exists facts :: DraftIs(scope, draft, facts)
    case Publish(_, draft, _) => exists facts :: DraftIs(scope, draft, facts)
    case _ => true
  }

  lemma AssetMatches(n: Native, scope: BoundScope, intent: Intent, facts: Facts)
    requires n.descriptors.intentOf(scope.operation) == Some(intent) && intent.Asset? && ParentsRecorded(scope, intent)
    ensures Matches(n, scope, facts)
         == Ok(AssetAgrees(n, scope, intent, facts) && forall d :: d in KnownDigests(facts, None) ==> d == intent.sha256)
  {
    hide FindParent;
    var draft :| DraftIs(scope, intent.draftOperation, draft);
    assert DraftFacts(scope, intent.draftOperation) == Ok(draft);
    forall other | DraftIs(scope, intent.draftOperation, other) ensures other == draft {
    }
    assert facts.AssetFacts? && facts.sha256.Some? ==> facts.sha256.value in KnownDigests(facts, None);
  }

  lemma ReleaseMatches(n: Native, scope: BoundScope, intent: Intent, facts: Facts)
    requires n.descriptors.intentOf(scope.operation) == Some(intent) && intent.Publish? && ParentsRecorded(scope, intent)
    ensures Matches(n, scope, facts) == Ok(ReleaseAgrees(n, scope, intent, facts))
  {
    hide FindParent;
    var draft :| DraftIs(scope, intent.draftOperation, draft);
    assert DraftFacts(scope, intent.draftOperation) == Ok(draft);
    forall other | DraftIs(scope, intent.draftOperation, other) ensures other == draft {
    }
    if facts.ReleaseFacts? {
      assert facts.(draft := true) == draft.(draft := true) <==> draft == facts.(draft := draft.draft);
    }
  }

  lemma OtherMatches(n: Native, scope: BoundScope, intent: Intent, facts: Facts)
    requires n.descriptors.intentOf(scope.operation) == Some(intent) && !intent.Asset? && !intent.Publish?
    requires ParentsRecorded(scope, intent)
    ensures Matches(n, scope, facts) == Ok(TagOrDraftAgrees(n, scope, intent, facts))
  {
    hide FindParent;
    if intent.AnnotatedRef? {
      var tagged: Facts :| tagged.TagFacts? && ParentFactsAre(scope, intent.annotatedTagOperation, tagged);
      var p :| FindParent(scope.parents, intent.annotatedTagOperation) == Some(p) && p.facts == tagged;
      forall other | ParentFactsAre(scope, intent.annotatedTagOperation, other) ensures other == tagged {
      }
    }
  }

  // ---- Nothing present ----

  /** A look that found nothing, or could not look: nothing is ever Satisfied or in Conflict by it. */
  lemma WithoutPresence(n: Native, o: Operation, evidence: Evidence, receipts: seq<Json>, dependencies: seq<OperationEvidence>)
    requires !evidence.Present?
    ensures var r := ClassifyObservation(n, o, evidence, receipts, dependencies);
      && (r == Ok(Inconclusive) <==> evidence == Unavailable(o.operationId))
      && (r == Ok(Pending) <==> receipts != [] && MissingFrom(n, o, evidence, dependencies))
      && (r == Ok(Absent) <==> receipts == [] && MissingFrom(n, o, evidence, dependencies))
      && r != Ok(Satisfied) && r != Ok(Conflict)
  {
    hide BindScope;
  }

  ghost predicate MissingFrom(n: Native, o: Operation, evidence: Evidence, dependencies: seq<OperationEvidence>) {
    exists scope :: BindScope(n, o, dependencies) == Ok(scope) && evidence == Missing(n.encodeScope(scope))
  }

  // ---- Something present ----

  /** A presence that was observed in the scope the recorded facts bind. */
  ghost predicate SeenIn(
    n: Native, o: Operation, evidence: Evidence, dependencies: seq<OperationEvidence>, scope: BoundScope, intent: Intent)
  {
    && evidence.Present? && BindScope(n, o, dependencies) == Ok(scope) && evidence.scope == n.encodeScope(scope)
    && n.descriptors.intentOf(o) == Some(intent) && ParentsRecorded(scope, intent)
  }

  /** The commit behind the observation, where it is known, is the bound one. */
  predicate CommitAgrees(scope: BoundScope, evidence: Evidence)
    requires evidence.Present?
  {
    evidence.observedCommit.Some? ==> evidence.observedCommit.value == scope.targetCommit
  }

  /** An asset is Satisfied exactly when it is the planned file and some digest is known, and every known digest is
      the planned one; Inconclusive when it is but no digest is known; in Conflict when it is not, or a known digest
      differs. */
  lemma AssetMeans(
      n: Native, o: Operation, evidence: Evidence, receipts: seq<Json>, dependencies: seq<OperationEvidence>,
      scope: BoundScope, intent: Intent)
    requires SeenIn(n, o, evidence, dependencies, scope, intent) && intent.Asset? && evidence.assets == []
    ensures var r := ClassifyObservation(n, o, evidence, receipts, dependencies);
      var good := AssetAgrees(n, scope, intent, evidence.facts) && CommitAgrees(scope, evidence);
      var known := KnownDigests(evidence.facts, evidence.downloaded);
      && (r == Ok(Satisfied) <==> good && known == {intent.sha256})
      && (r == Ok(Inconclusive) <==> good && known == {})
      && (r == Ok(Conflict) <==> !good || exists d :: d in known && d != intent.sha256)
  {
    hide BindScope, AssetAgrees, FindParent, Matches, AssetsStatus;
    BoundOperation(n, o, dependencies);
    AssetMatches(n, scope, intent, evidence.facts);
    DigestsSplit(evidence.facts, evidence.downloaded, intent.sha256);
    assert AssetAgrees(n, scope, intent, evidence.facts) ==> evidence.facts.AssetFacts? by {
      AgreeingAsset(n, scope, intent, evidence.facts);
    }
  }

  lemma AgreeingAsset(n: Native, scope: BoundScope, intent: Intent, facts: Facts)
    requires intent.Asset?
    ensures AssetAgrees(n, scope, intent, facts) ==> facts.AssetFacts?
  {
  }

  lemma DigestsSplit(facts: Facts, downloaded: Option<Text>, planned: Text)
    ensures var known, served := KnownDigests(facts, downloaded), KnownDigests(facts, None);
      && (known == {} <==> served == {} && downloaded.None?)
      && (known == {planned} <==>
            known != {} && (forall d :: d in served ==> d == planned) && (downloaded.Some? ==> downloaded.value == planned))
      && ((exists d :: d in known && d != planned) <==>
            (exists d :: d in served && d != planned) || (downloaded.Some? && downloaded.value != planned))
      && (facts.AssetFacts? ==> (served != {} <==> facts.sha256.Some?))
  {
    var known := KnownDigests(facts, downloaded);
    if downloaded.Some? { assert downloaded.value in known; }
    if facts.AssetFacts? && facts.sha256.Some? { assert facts.sha256.value in known; }
  }

  /** A tag or reference is Satisfied exactly when it agrees; a draft also needs its commit to be known. */
  lemma TagOrDraftMeans(
      n: Native, o: Operation, evidence: Evidence, receipts: seq<Json>, dependencies: seq<OperationEvidence>,
      scope: BoundScope, intent: Intent)
    requires SeenIn(n, o, evidence, dependencies, scope, intent) && !intent.Asset? && !intent.Publish?
    requires evidence.assets == []
    ensures var r := ClassifyObservation(n, o, evidence, receipts, dependencies);
      var good := TagOrDraftAgrees(n, scope, intent, evidence.facts) && CommitAgrees(scope, evidence);
      && (r == Ok(Satisfied) <==> good && (intent.Draft? ==> evidence.observedCommit.Some?))
      && (r == Ok(Inconclusive) <==> good && intent.Draft? && evidence.observedCommit.None?)
      && (r == Ok(Conflict) <==> !good)
  {
    hide BindScope, TagOrDraftAgrees, FindParent, Matches, AssetsStatus;
    BoundOperation(n, o, dependencies);
    OtherMatches(n, scope, intent, evidence.facts);
  }

  /** Only a publication comes with an enumeration: elsewhere a list of assets is refused. */
  lemma EnumerationRefused(
      n: Native, o: Operation, evidence: Evidence, receipts: seq<Json>, dependencies: seq<OperationEvidence>,
      scope: BoundScope, intent: Intent)
    requires SeenIn(n, o, evidence, dependencies, scope, intent) && !intent.Publish? && evidence.assets != []
    ensures ClassifyObservation(n, o, evidence, receipts, dependencies) in {Ok(Conflict), Fail(ObservationAssets)}
  {
    hide BindScope, FindParent, Matches, AssetsStatus;
    BoundOperation(n, o, dependencies);
    if intent.Asset? {
      AssetMatches(n, scope, intent, evidence.facts);
    } else {
      OtherMatches(n, scope, intent, evidence.facts);
    }
  }

  // ---- The complete enumeration of a publication ----

  /** What is recorded of a planned asset: its operation and its scope, in which its draft is recorded. */
  ghost predicate Planned(n: Native, dependencies: seq<OperationEvidence>, id: Text, intent: Intent, scope: BoundScope) {
    exists dependency ::
      && FindEvidence(dependencies, id) == Some(dependency)
      && BindScope(n, dependency.operation, dependencies) == Ok(scope)
      && n.descriptors.intentOf(dependency.operation) == Some(intent) && intent.Asset? && ParentsRecorded(scope, intent)
  }

  ghost predicate AllPlanned(n: Native, dependencies: seq<OperationEvidence>, ids: seq<Text>) {
    forall id :: id in ids ==> IsPlanned(n, dependencies, id)
  }

  ghost predicate IsPlanned(n: Native, dependencies: seq<OperationEvidence>, id: Text) {
    exists intent, scope :: Planned(n, dependencies, id, intent, scope)
  }

  /** The first remote asset under the planned name is the recorded one, agrees with the plan, and no known digest
      of it differs from the planned one. */
  ghost predicate Fits(
    n: Native, scope: BoundScope, assets: seq<AssetEvidence>, dependencies: seq<OperationEvidence>, id: Text, k: int)
  {
    exists intent, assetScope :: FitsAs(n, scope, assets, dependencies, id, k, intent, assetScope)
  }

  ghost predicate FitsAs(
    n: Native, scope: BoundScope, assets: seq<AssetEvidence>, dependencies: seq<OperationEvidence>, id: Text, k: int,
    intent: Intent, assetScope: BoundScope)
  {
    && 0 <= k < |assets| && Planned(n, dependencies, id, intent, assetScope)
    && assets[k].facts.storedName == intent.publicName
    && (exists recorded: Facts :: recorded.AssetFacts? && ParentFactsAre(scope, id, recorded)
          && recorded.assetId == assets[k].facts.assetId)
    && AssetAgrees(n, assetScope, intent, assets[k].facts)
    && forall d :: d in KnownDigests(assets[k].facts, assets[k].downloaded) ==> d == intent.sha256
  }

  predicate DigestKnown(assets: seq<AssetEvidence>, k: int)
    requires 0 <= k < |assets|
  {
    KnownDigests(assets[k].facts, assets[k].downloaded) != {}
  }

  lemma FindAssetAt(assets: seq<AssetEvidence>, k: int)
    requires NoDuplicates(StoredNames(assets)) && 0 <= k < |assets|
    ensures FindAsset(assets, assets[k].facts.storedName) == Some(assets[k])
  {
    hide FindAsset, NoDuplicates;
    var found := FindAsset(assets, assets[k].facts.storedName);
    FindsSome(assets, k);
    var j: nat :| j < |assets| && assets[j] == found.value;
    AtMostOnce(StoredNames(assets), j, k);
  }

  lemma {:induction false} FindsSome(assets: seq<AssetEvidence>, k: int)
    requires 0 <= k < |assets|
    ensures FindAsset(assets, assets[k].facts.storedName).Some?
  {
    if assets[0].facts.storedName != assets[k].facts.storedName {
      FindsSome(assets[1..], k - 1);
    }
  }

  lemma {:induction false} FindsNone(assets: seq<AssetEvidence>, name: Text)
    ensures FindAsset(assets, name).None? ==> forall k :: 0 <= k < |assets| ==> assets[k].facts.storedName != name
  {
    if assets != [] {
      FindsNone(assets[1..], name);
    }
  }

  /** The verdict on one planned asset: in Conflict if nothing fits; otherwise open until a digest is known. */
  lemma VerdictMeans(
      n: Native, scope: BoundScope, assets: seq<AssetEvidence>, dependencies: seq<OperationEvidence>, id: Text,
      intent: Intent, assetScope: BoundScope)
    requires NoDuplicates(StoredNames(assets)) && Planned(n, dependencies, id, intent, assetScope)
    ensures var r := AssetVerdict(n, scope, assets, dependencies, id);
      && r.Ok? && r.value in {Conflict, Inconclusive, Satisfied}
      && (r == Ok(Conflict) <==> forall k :: !Fits(n, scope, assets, dependencies, id, k))
      && (r == Ok(Satisfied) <==> exists k :: Fits(n, scope, assets, dependencies, id, k) && DigestKnown(assets, k))
      && (r == Ok(Inconclusive) <==> exists k :: Fits(n, scope, assets, dependencies, id, k) && !DigestKnown(assets, k))
  {
    hide BindScope, FindEvidence, FindParent, AssetAgrees, Matches, NoDuplicates;
    PlannedOnce(n, dependencies, id, intent, assetScope);
    var dependency := FindEvidence(dependencies, id).value;
    BoundOperation(n, dependency.operation, dependencies);
    FindsNone(assets, intent.publicName);
    var actual := FindAsset(assets, intent.publicName);
    forall k | 0 <= k < |assets| && assets[k].facts.storedName == intent.publicName ensures actual == Some(assets[k]) {
      FindAssetAt(assets, k);
    }
    if actual.Some? {
      var k :| 0 <= k < |assets| && assets[k] == actual.value;
      FitsHere(n, scope, assets, dependencies, id, k, intent, assetScope);
      AssetMatches(n, assetScope, intent, assets[k].facts);
      DigestsSplit(assets[k].facts, assets[k].downloaded, intent.sha256);
      forall j | Fits(n, scope, assets, dependencies, id, j) ensures assets[j] == assets[k] {
        FitsAny(n, scope, assets, dependencies, id, j, intent, assetScope);
      }
    } else {
      forall j ensures !Fits(n, scope, assets, dependencies, id, j) {
        FitsAny(n, scope, assets, dependencies, id, j, intent, assetScope);
      }
    }
  }

  lemma PlannedOnce(n: Native, dependencies: seq<OperationEvidence>, id: Text, intent: Intent, scope: BoundScope)
    requires Planned(n, dependencies, id, intent, scope)
    ensures FindEvidence(dependencies, id).Some?
    ensures BindScope(n, FindEvidence(dependencies, id).value.operation, dependencies) == Ok(scope)
    ensures n.descriptors.intentOf(FindEvidence(dependencies, id).value.operation) == Some(intent)
    ensures intent.Asset? && ParentsRecorded(scope, intent)
    ensures forall i, s :: Planned(n, dependencies, id, i, s) ==> i == intent && s == scope
  {
    hide BindScope, FindEvidence, ParentsRecorded;
  }

  lemma FitsAny(
      n: Native, scope: BoundScope, assets: seq<AssetEvidence>, dependencies: seq<OperationEvidence>, id: Text, k: int,
      intent: Intent, assetScope: BoundScope)
    requires Planned(n, dependencies, id, intent, assetScope)
    ensures Fits(n, scope, assets, dependencies, id, k) <==> FitsAs(n, scope, assets, dependencies, id, k, intent, assetScope)
    ensures Fits(n, scope, assets, dependencies, id, k) ==> 0 <= k < |assets| && assets[k].facts.storedName == intent.publicName
  {
    hide Planned, AssetAgrees, ParentFactsAre;
    PlannedOnce(n, dependencies, id, intent, assetScope);
  }

  lemma FitsHere(
      n: Native, scope: BoundScope, assets: seq<AssetEvidence>, dependencies: seq<OperationEvidence>, id: Text, k: int,
      intent: Intent, assetScope: BoundScope)
    requires Planned(n, dependencies, id, intent, assetScope)
    requires 0 <= k < |assets| && assets[k].facts.storedName == intent.publicName
    ensures var recorded := FindParent(scope.parents, id);
      Fits(n, scope, assets, dependencies, id, k) <==>
        && recorded.Some? && recorded.value.facts.AssetFacts? && recorded.value.facts.assetId == assets[k].facts.assetId
        && AssetAgrees(n, assetScope, intent, assets[k].facts)
        && forall d :: d in KnownDigests(assets[k].facts, assets[k].downloaded) ==> d == intent.sha256
  {
    hide Planned, AssetAgrees, FindParent;
    FitsAny(n, scope, assets, dependencies, id, k, intent, assetScope);
    var recorded := FindParent(scope.parents, id);
    if recorded.Some? {
      assert ParentFactsAre(scope, id, recorded.value.facts);
    }
  }

  /** Every planned asset has a remote asset that fits. */
  ghost predicate AllFit(
    n: Native, scope: BoundScope, assets: seq<AssetEvidence>, dependencies: seq<OperationEvidence>, ids: seq<Text>)
  {
    forall id :: id in ids ==> HasFit(n, scope, assets, dependencies, id)
  }

  ghost predicate HasFit(
    n: Native, scope: BoundScope, assets: seq<AssetEvidence>, dependencies: seq<OperationEvidence>, id: Text)
  {
    exists k :: Fits(n, scope, assets, dependencies, id, k)
  }

  /** And a digest of each of them is known. */
  ghost predicate AllKnown(
    n: Native, scope: BoundScope, assets: seq<AssetEvidence>, dependencies: seq<OperationEvidence>, ids: seq<Text>)
  {
    forall id :: id in ids ==> HasKnownFit(n, scope, assets, dependencies, id)
  }

  ghost predicate HasKnownFit(
    n: Native, scope: BoundScope, assets: seq<AssetEvidence>, dependencies: seq<OperationEvidence>, id: Text)
  {
    exists k :: Fits(n, scope, assets, dependencies, id, k) && DigestKnown(assets, k)
  }

  lemma {:induction false} VerdictsMean(
      n: Native, scope: BoundScope, assets: seq<AssetEvidence>, dependencies: seq<OperationEvidence>, ids: seq<Text>,
      status: ObservationStatus)
    requires NoDuplicates(StoredNames(assets)) && AllPlanned(n, dependencies, ids) && status in {Satisfied, Inconclusive}
    ensures var r := AssetsVerdict(n, scope, assets, dependencies, ids, status);
      && (r == Ok(Satisfied) <==> AllKnown(n, scope, assets, dependencies, ids) && status == Satisfied)
      && (r == Ok(Conflict) <==> !AllFit(n, scope, assets, dependencies, ids))
      && (r == Ok(Inconclusive) <==>
            && AllFit(n, scope, assets, dependencies, ids)
            && (status == Inconclusive || !AllKnown(n, scope, assets, dependencies, ids)))
      && r.Ok?
  {
    hide AssetVerdict, IsPlanned, HasFit, HasKnownFit, NoDuplicates;
    if ids != [] {
      var first, rest := ids[0], ids[1..];
      assert forall id :: id in ids <==> id == first || id in rest;
      FirstVerdict(n, scope, assets, dependencies, first);
      var verdict := AssetVerdict(n, scope, assets, dependencies, first).value;
      if verdict != Conflict {
        VerdictsMean(n, scope, assets, dependencies, rest, if verdict == Inconclusive then Inconclusive else status);
      }
    }
  }

  lemma FirstVerdict(
      n: Native, scope: BoundScope, assets: seq<AssetEvidence>, dependencies: seq<OperationEvidence>, id: Text)
    requires NoDuplicates(StoredNames(assets)) && IsPlanned(n, dependencies, id)
    ensures var r := AssetVerdict(n, scope, assets, dependencies, id);
      && r.Ok? && r.value in {Conflict, Inconclusive, Satisfied}
      && (r == Ok(Conflict) <==> !HasFit(n, scope, assets, dependencies, id))
      && (r == Ok(Satisfied) <==> HasKnownFit(n, scope, assets, dependencies, id))
  {
    hide AssetVerdict, Fits, Planned, DigestKnown, NoDuplicates;
    var intent, assetScope :| Planned(n, dependencies, id, intent, assetScope);
    VerdictMeans(n, scope, assets, dependencies, id, intent, assetScope);
  }

  /** As many remote assets as planned ones, under different identities and different names. */
  predicate CountsAgree(assets: seq<AssetEvidence>, ids: seq<Text>) {
    |assets| == |ids| && NoDuplicates(AssetIds(assets)) && NoDuplicates(StoredNames(assets))
  }

  /** The enumeration is Satisfied exactly when it is complete and every digest known, in Conflict exactly when it is
      not complete, and otherwise Inconclusive. */
  lemma EnumerationMeans(
      n: Native, scope: BoundScope, assets: seq<AssetEvidence>, dependencies: seq<OperationEvidence>, intent: Intent)
    requires n.descriptors.intentOf(scope.operation) == Some(intent) && intent.Publish?
    requires AllPlanned(n, dependencies, intent.assetOperations)
    ensures var r, ids := AssetsStatus(n, scope, assets, dependencies), intent.assetOperations;
      var complete := CountsAgree(assets, ids) && AllFit(n, scope, assets, dependencies, ids);
      && (r == Ok(Satisfied) <==> complete && AllKnown(n, scope, assets, dependencies, ids))
      && (r == Ok(Inconclusive) <==> complete && !AllKnown(n, scope, assets, dependencies, ids))
      && (r == Ok(Conflict) <==> !complete)
  {
    hide AssetsVerdict, Fits, NoDuplicates, DigestKnown, Planned;
    if CountsAgree(assets, intent.assetOperations) {
      VerdictsMean(n, scope, assets, dependencies, intent.assetOperations, Satisfied);
      KnownFit(n, scope, assets, dependencies, intent.assetOperations);
    }
  }

  lemma KnownFit(
      n: Native, scope: BoundScope, assets: seq<AssetEvidence>, dependencies: seq<OperationEvidence>, ids: seq<Text>)
    ensures AllKnown(n, scope, assets, dependencies, ids) ==> AllFit(n, scope, assets, dependencies, ids)
  {
    hide Fits, DigestKnown;
  }

  // ---- The publication ----

  /** What every status of an observed publication means. It is Satisfied exactly when the release is the recorded
      draft, public, at the bound commit, and the enumeration is complete with every digest known. */
  lemma PublicationMeans(
      n: Native, o: Operation, evidence: Evidence, receipts: seq<Json>, dependencies: seq<OperationEvidence>,
      scope: BoundScope, intent: Intent)
    requires SeenIn(n, o, evidence, dependencies, scope, intent) && intent.Publish?
    requires AllPlanned(n, dependencies, intent.assetOperations)
    ensures var r, ids, assets := ClassifyObservation(n, o, evidence, receipts, dependencies), intent.assetOperations, evidence.assets;
      var same := ReleaseAgrees(n, scope, intent, evidence.facts);
      var atCommit := evidence.observedCommit == Some(scope.targetCommit);
      var complete := CountsAgree(assets, ids) && AllFit(n, scope, assets, dependencies, ids);
      var known := AllKnown(n, scope, assets, dependencies, ids);
      var draft := evidence.facts.ReleaseFacts? && evidence.facts.draft;
      && (r == Ok(Satisfied) <==> same && atCommit && complete && known && !draft)
      && (r == Ok(Absent) <==> same && atCommit && complete && known && draft && receipts == [])
      && (r == Ok(Inconclusive) <==>
            same && (evidence.observedCommit.None? || (atCommit && complete && !known)))
      && (r == Ok(Conflict) <==>
            || !same || (evidence.observedCommit.Some? && !atCommit)
            || (atCommit && !complete) || (atCommit && complete && known && draft && receipts != []))
      && r != Ok(Pending)
  {
    hide BindScope, ReleaseAgrees, FindParent, Matches, AssetsStatus, CountsAgree, AllFit, AllKnown;
    BoundOperation(n, o, dependencies);
    ReleaseMatches(n, scope, intent, evidence.facts);
    EnumerationMeans(n, scope, evidence.assets, dependencies, intent);
  }

  // ---- The record that speaks for a parent ----

  /** A record of the operation's existence: a receipt of it, or a Satisfied observation, decoded. */
  ghost predicate Records(n: Native, e: OperationEvidence, p: Parent) {
    || (exists i :: 0 <= i < |e.receipts| && IsRecordOf(n.receipt(e.receipts[i]), e.operation, p))
    || (exists i :: 0 <= i < |e.observations| && e.observations[i].0 == Satisfied
                    && IsRecordOf(n.present(e.observations[i].1), e.operation, p))
  }

  predicate IsRecordOf(recorded: Option<Recorded>, o: Operation, p: Parent) {
    && recorded.Some? && recorded.value.scope.operation == o
    && p == Parent(o.operationId, recorded.value.scope.targetCommit, recorded.value.facts)
  }

  lemma {:induction false} ReceiptRecords(n: Native, o: Operation, receipts: seq<Json>, p: Parent)
    requires ReceiptParents(n, o, receipts).Ok?
    ensures p in ReceiptParents(n, o, receipts).value
       <==> exists i :: 0 <= i < |receipts| && IsRecordOf(n.receipt(receipts[i]), o, p)
  {
    if receipts != [] {
      var prior, last := receipts[..|receipts| - 1], receipts[|receipts| - 1];
      ReceiptRecords(n, o, prior, p);
      assert forall i :: 0 <= i < |prior| ==> prior[i] == receipts[i];
      if IsRecordOf(n.receipt(last), o, p) {
        assert IsRecordOf(n.receipt(receipts[|prior|]), o, p);
      }
    }
  }

  lemma {:induction false} ObservationRecords(n: Native, o: Operation, observations: seq<(ObservationStatus, Json)>, p: Parent)
    requires ObservedParents(n, o, observations).Ok?
    ensures p in ObservedParents(n, o, observations).value <==>
      exists i :: 0 <= i < |observations| && observations[i].0 == Satisfied && IsRecordOf(n.present(observations[i].1), o, p)
  {
    if observations != [] {
      var prior, last := observations[..|observations| - 1], observations[|observations| - 1];
      ObservationRecords(n, o, prior, p);
      assert forall i :: 0 <= i < |prior| ==> prior[i] == observations[i];
      if last.0 == Satisfied && IsRecordOf(n.present(last.1), o, p) {
        assert observations[|prior|] == last;
      }
    }
  }

  /** The gathered candidates are exactly these records. */
  lemma CandidatesMean(n: Native, e: OperationEvidence, p: Parent)
    requires Candidates(n, e).Ok?
    ensures p in Candidates(n, e).value <==> Records(n, e, p)
  {
    hide ReceiptParents, ObservedParents, IsRecordOf;
    ReceiptRecords(n, e.operation, e.receipts, p);
    ObservationRecords(n, e.operation, e.observations, p);
  }

  /** Public exposure speaks before a known digest, and that before anything else. */
  function Rank(p: Parent): nat {
    if IsPublic(p) then 2 else if HasDigest(p) then 1 else 0
  }

  /** The last of the records of highest rank. */
  ghost predicate Speaks(candidates: seq<Parent>, p: Parent) {
    exists k :: SpeaksAt(candidates, p, k)
  }

  predicate SpeaksAt(candidates: seq<Parent>, p: Parent, k: int) {
    && 0 <= k < |candidates| && candidates[k] == p
    && (forall j :: 0 <= j < k ==> Rank(candidates[j]) <= Rank(p))
    && (forall j :: k < j < |candidates| ==> Rank(candidates[j]) < Rank(p))
  }

  lemma {:induction false} LastWhereMeans(candidates: seq<Parent>, wanted: Parent -> bool) returns (k: int)
    ensures LastWhere(candidates, wanted).Some? ==>
      && 0 <= k < |candidates| && candidates[k] == LastWhere(candidates, wanted).value && wanted(candidates[k])
      && forall j :: k < j < |candidates| ==> !wanted(candidates[j])
  {
    k := |candidates| - 1;
    if candidates != [] && !wanted(candidates[k]) {
      var prior := candidates[..k];
      k := LastWhereMeans(prior, wanted);
      assert forall j :: 0 <= j < |prior| ==> prior[j] == candidates[j];
    }
  }

  /** A parent is selected exactly when there are records, they agree in everything that is identity, they know one
      digest, and it is the last of the highest rank. */
  lemma SelectedMeans(n: Native, e: OperationEvidence, p: Parent)
    ensures SelectedParent(n, e) == Ok(Some(p)) <==>
      && Candidates(n, e).Ok?
      && var candidates := Candidates(n, e).value;
        && OneParent(candidates) && OneDigest(candidates) && Speaks(candidates, p)
  {
    hide Candidates, LastWhere, Stable, OneDigest;
    if Candidates(n, e).Ok? && OneParent(Candidates(n, e).value) && OneDigest(Candidates(n, e).value)
       && Candidates(n, e).value != []
    {
      var candidates := Candidates(n, e).value;
      var exposed, known := LastWhere(candidates, q => IsPublic(q)), LastWhere(candidates, q => HasDigest(q));
      var i := LastWhereMeans(candidates, q => IsPublic(q));
      var j := LastWhereMeans(candidates, q => HasDigest(q));
      var chosen := SelectedParent(n, e).value.value;
      var k := if exposed.Some? then i else if known.Some? then j else |candidates| - 1;
      assert forall q :: q in candidates ==> (exposed.None? ==> !IsPublic(q)) && (known.None? ==> !HasDigest(q));
      assert forall m :: 0 <= m < |candidates| ==> candidates[m] in candidates;
      SpeakerChosen(candidates, chosen, k, exposed.Some?, known.Some?);
      if Speaks(candidates, p) {
        var m :| SpeaksAt(candidates, p, m);
        assert m == k;
      }
    }
  }

  lemma SpeakerChosen(candidates: seq<Parent>, chosen: Parent, k: int, exposed: bool, known: bool)
    requires 0 <= k < |candidates| && candidates[k] == chosen
    requires exposed ==> IsPublic(chosen) && forall j :: k < j < |candidates| ==> !IsPublic(candidates[j])
    requires !exposed ==> forall j :: 0 <= j < |candidates| ==> !IsPublic(candidates[j])
    requires !exposed && known ==> HasDigest(chosen) && forall j :: k < j < |candidates| ==> !HasDigest(candidates[j])
    requires !exposed && !known ==> k == |candidates| - 1 && forall j :: 0 <= j < |candidates| ==> !HasDigest(candidates[j])
    ensures SpeaksAt(candidates, chosen, k)
  {
  }
}
