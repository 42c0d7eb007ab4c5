/** The release graph of one hosting service: native relationships between a plan's operations. */
module GitHubGraph {
  import opened Texts
  import opened ReleaseModel
  import opened Dag

  datatype TagSource = ManagedTag(operationId: Text) | ExistingTag(commit: Text)

  datatype Intent =
    | LightweightTag(repository: Text, tag: Text, commit: Text)
    | AnnotatedTag(repository: Text, tag: Text, commit: Text, details: Text)  // message and tagger
    | AnnotatedRef(repository: Text, tag: Text, annotatedTagOperation: Text)
    | Draft(repository: Text, tag: Text, source: TagSource, title: Text, notes: Text, prerelease: bool)
    | Asset(repository: Text, draftOperation: Text, size: nat, sha256: Text, publicName: Text, mediaType: Text)
    | Publish(repository: Text, draftOperation: Text, assetOperations: seq<Text>)

  /** Which operations are of this provider, how they decode, and how API addresses compare. */
  datatype Descriptors = Descriptors(
    owns: Operation -> bool,
    intentOf: Operation -> Option<Intent>,
    lower: Text -> Text)

  function RequiredParents(intent: Intent): seq<Text> {
    match intent
    case AnnotatedRef(_, _, id) => [id]
    case Draft(_, _, ManagedTag(id), _, _, _) => [id]
    case Publish(_, draft, assets) => [draft] + assets
    case Asset(_, draft, _, _, _, _) => [draft]
    case _ => []
  }

  function Owned(d: Descriptors, operations: seq<Operation>): (r: seq<Operation>)
    ensures forall o :: o in r <==> o in operations && d.owns(o)
  {
    if operations == [] then []
    else
      assert operations == [operations[0]] + operations[1..];
      if d.owns(operations[0]) then [operations[0]] + Owned(d, operations[1..]) else Owned(d, operations[1..])
  }

  /** `intents.get(id)`. */
  function IntentFor(d: Descriptors, owned: seq<Operation>, id: Text): Option<Intent> {
    if owned == [] then None
    else if owned[|owned| - 1].operationId == id then d.intentOf(owned[|owned| - 1])
    else IntentFor(d, owned[..|owned| - 1], id)
  }

  predicate SameRepository(d: Descriptors, a: Intent, b: Intent) {
    d.lower(a.repository) == d.lower(b.repository)
  }

  /** Identities of the asset operations of a draft, in plan order. */
  function AssetsOf(d: Descriptors, owned: seq<Operation>, draft: Text): (r: seq<Text>)
    ensures forall id :: id in r <==>
      exists o :: o in owned && o.operationId == id && d.intentOf(o).Some? && d.intentOf(o).value.Asset?
                  && d.intentOf(o).value.draftOperation == draft
  {
    if owned == [] then []
    else
      assert owned == [owned[0]] + owned[1..];
      var intent := d.intentOf(owned[0]);
      if intent.Some? && intent.value.Asset? && intent.value.draftOperation == draft
      then [owned[0].operationId] + AssetsOf(d, owned[1..], draft)
      else AssetsOf(d, owned[1..], draft)
  }

  const COLON: Text := [58]
  const ASSET: Text := [58, 97, 115, 115, 101, 116, 58]                       // ":asset:"
  const PUBLISH: Text := [58, 112, 117, 98, 108, 105, 115, 104, 58]           // ":publish:"
  const REF: Text := [58, 114, 101, 102, 58]                                  // ":ref:"
  const OBJECT: Text := [58, 111, 98, 106, 101, 99, 116, 58]                  // ":object:"
  const DRAFT: Text := [58, 100, 114, 97, 102, 116, 58]                       // ":draft:"

  /** The native place an operation writes to. Repository names do not differ by case alone. */
  function Coordinate(d: Descriptors, intent: Intent): Text {
    d.lower(intent.repository) +
    match intent
    case Asset(_, draft, _, _, name, _) => ASSET + draft + COLON + name
    case Publish(_, draft, _) => PUBLISH + draft
    case LightweightTag(_, tag, _) => REF + tag
    case AnnotatedRef(_, tag, _) => REF + tag
    case AnnotatedTag(_, tag, _, _) => OBJECT + tag
    case Draft(_, tag, _, _, _, _) => DRAFT + tag
  }

  /** The checks of one operation against the others. */
  function OperationVerdict(d: Descriptors, owned: seq<Operation>, o: Operation): Result<()> {
    match d.intentOf(o)
    case None => Fail(GraphDefinition)
    case Some(intent) =>
      if exists i :: 0 <= i < |RequiredParents(intent)| && !ParentOk(d, owned, o, intent, RequiredParents(intent)[i])
        then Fail(GraphDependency)
      else
        match intent
        case AnnotatedRef(_, tag, id) =>
          var parent := IntentFor(d, owned, id);
          if parent.None? || !parent.value.AnnotatedTag? || parent.value.tag != tag then Fail(AnnotatedParent) else Ok(())
        case Draft(_, tag, ManagedTag(id), _, _, _) =>
          var parent := IntentFor(d, owned, id);
          if parent.None? || !(parent.value.LightweightTag? || parent.value.AnnotatedRef?) || parent.value.tag != tag
          then Fail(DraftTag) else Ok(())
        case Asset(_, draft, _, _, _, _) => if IsDraft(d, owned, draft) then Ok(()) else Fail(DraftParent)
        case Publish(_, draft, assets) =>
          if !IsDraft(d, owned, draft) then Fail(DraftParent)
          else if !NoDuplicates(assets) then Fail(DuplicateAsset)
          else if Sort(AssetsOf(d, owned, draft)) != Sort(assets) then Fail(CompleteAssets)
          else Ok(())
        case _ => Ok(())
  }

  predicate ParentOk(d: Descriptors, owned: seq<Operation>, o: Operation, intent: Intent, id: Text) {
    var parent := IntentFor(d, owned, id);
    parent.Some? && id in o.dependsOn && SameRepository(d, intent, parent.value)
  }

  predicate IsDraft(d: Descriptors, owned: seq<Operation>, id: Text) {
    var parent := IntentFor(d, owned, id);
    parent.Some? && parent.value.Draft?
  }

  /** What `validatePlan` admits: every relationship in place, and no native place written twice. */
  ghost predicate GraphOk(d: Descriptors, operations: seq<Operation>) {
    var owned := Owned(d, operations);
    && (forall i :: 0 <= i < |owned| ==> d.intentOf(owned[i]).Some? && OperationVerdict(d, owned, owned[i]).Ok?)
    && (forall i, j :: 0 <= i < j < |owned| && d.intentOf(owned[i]).Some? && d.intentOf(owned[j]).Some? ==>
          Coordinate(d, d.intentOf(owned[i]).value) != Coordinate(d, d.intentOf(owned[j]).value))
  }

  method ValidatePlan(d: Descriptors, operations: seq<Operation>) returns (r: Result<()>)
    ensures r.Ok? <==> GraphOk(d, operations)
  {
    hide Coordinate, OperationVerdict;
    var owned := Owned(d, operations);
    if exists i :: 0 <= i < |owned| && d.intentOf(owned[i]).None? {
      return Fail(GraphDefinition);
    }
    var coordinates: set<Text> := {};
    for k := 0 to |owned|
      invariant forall i :: 0 <= i < k ==> OperationVerdict(d, owned, owned[i]).Ok?
      invariant forall c :: c in coordinates <==> exists i :: 0 <= i < k && c == Coordinate(d, d.intentOf(owned[i]).value)
      invariant forall i, j :: 0 <= i < j < k ==>
        Coordinate(d, d.intentOf(owned[i]).value) != Coordinate(d, d.intentOf(owned[j]).value)
    {
      r := OperationVerdict(d, owned, owned[k]);
      if r.Fail? {
        return r;
      }
      var coordinate := Coordinate(d, d.intentOf(owned[k]).value);
      if coordinate in coordinates {
        return Fail(DuplicateCoordinate);
      }
      coordinates := coordinates + {coordinate};
    }
    r := Ok(());
  }

  // ---- What an admitted graph guarantees about a publication ----

  lemma {:induction false} IntentOfOwned(d: Descriptors, owned: seq<Operation>, o: Operation)
    requires UniqueIds(owned) && o in owned
    ensures IntentFor(d, owned, o.operationId) == d.intentOf(o)
  {
    var last := owned[|owned| - 1];
    if last.operationId == o.operationId {
      var i :| 0 <= i < |owned| && owned[i] == o;
      assert i == |owned| - 1;
    } else {
      var prior := owned[..|owned| - 1];
      assert owned == prior + [last];
      forall i, j | 0 <= i < j < |prior| ensures prior[i].operationId != prior[j].operationId {
        assert prior[i] == owned[i] && prior[j] == owned[j];
      }
      IntentOfOwned(d, prior, o);
    }
  }

  lemma {:induction false} OwnedUnique(d: Descriptors, operations: seq<Operation>)
    requires UniqueIds(operations)
    ensures UniqueIds(Owned(d, operations))
  {
    if operations != [] {
      assert forall i :: 0 <= i < |operations[1..]| ==> operations[1..][i] == operations[i + 1];
      OwnedUnique(d, operations[1..]);
      var rest := Owned(d, operations[1..]);
      forall j | 0 <= j < |rest| ensures rest[j].operationId != operations[0].operationId {
        assert rest[j] in rest;
        var i :| 0 <= i < |operations[1..]| && operations[1..][i] == rest[j];
        assert operations[i + 1] == rest[j];
      }
    }
  }

  lemma SortedAlike(a: seq<Text>, b: seq<Text>)
    requires Sort(a) == Sort(b)
    ensures forall id :: id in a <==> id in b
  {
    SortCanonical(a, b);
    forall id ensures id in a <==> id in b {
      assert id in multiset(a) <==> id in multiset(b);
    }
  }

  predicate IsAssetOf(d: Descriptors, o: Operation, draft: Text) {
    d.intentOf(o).Some? && d.intentOf(o).value.Asset? && d.intentOf(o).value.draftOperation == draft
  }

  lemma PublishVerdict(d: Descriptors, operations: seq<Operation>, publish: Operation)
    requires GraphOk(d, operations) && publish in operations && d.owns(publish)
    requires d.intentOf(publish).Some? && d.intentOf(publish).value.Publish?
    ensures var intent := d.intentOf(publish).value;
      && NoDuplicates(intent.assetOperations)
      && Sort(AssetsOf(d, Owned(d, operations), intent.draftOperation)) == Sort(intent.assetOperations)
  {
    hide ParentOk, Coordinate, IntentFor, Sort, AssetsOf, IsDraft, NoDuplicates;
    var owned := Owned(d, operations);
    var k :| 0 <= k < |owned| && owned[k] == publish;
    assert OperationVerdict(d, owned, owned[k]).Ok?;
  }

  /** A publication names exactly the plan's asset operations for its draft. */
  lemma PublishNamesEveryAsset(d: Descriptors, operations: seq<Operation>, publish: Operation, id: Text)
    requires GraphOk(d, operations) && publish in operations && d.owns(publish)
    requires d.intentOf(publish).Some? && d.intentOf(publish).value.Publish?
    ensures NoDuplicates(d.intentOf(publish).value.assetOperations)
    ensures id in d.intentOf(publish).value.assetOperations <==>
      exists o :: o in operations && d.owns(o) && o.operationId == id && IsAssetOf(d, o, d.intentOf(publish).value.draftOperation)
  {
    hide GraphOk, Sort;
    var owned, intent := Owned(d, operations), d.intentOf(publish).value;
    PublishVerdict(d, operations, publish);
    SortedAlike(AssetsOf(d, owned, intent.draftOperation), intent.assetOperations);
  }

  /** Two assets of one draft have different public names. */
  lemma AssetNamesDistinct(d: Descriptors, operations: seq<Operation>, a: Operation, b: Operation, draft: Text)
    requires GraphOk(d, operations) && UniqueIds(operations)
    requires a in operations && b in operations && d.owns(a) && d.owns(b)
    requires IsAssetOf(d, a, draft) && IsAssetOf(d, b, draft)
    requires d.intentOf(a).value.publicName == d.intentOf(b).value.publicName
    ensures a == b
  {
    hide OperationVerdict;
    var owned := Owned(d, operations);
    var i :| 0 <= i < |owned| && owned[i] == a;
    var j :| 0 <= j < |owned| && owned[j] == b;
    AssetRepository(d, operations, a, draft);
    AssetRepository(d, operations, b, draft);
    assert Coordinate(d, d.intentOf(a).value) == Coordinate(d, d.intentOf(b).value);
    assert i == j;
  }

  /** An asset lives in its draft's repository. */
  lemma AssetRepository(d: Descriptors, operations: seq<Operation>, a: Operation, draft: Text)
    requires GraphOk(d, operations) && a in operations && d.owns(a) && IsAssetOf(d, a, draft)
    ensures IntentFor(d, Owned(d, operations), draft).Some?
    ensures d.lower(d.intentOf(a).value.repository) == d.lower(IntentFor(d, Owned(d, operations), draft).value.repository)
  {
    hide IntentFor, Coordinate;
    var owned := Owned(d, operations);
    var i :| 0 <= i < |owned| && owned[i] == a;
    assert OperationVerdict(d, owned, owned[i]).Ok?;
    var intent := d.intentOf(a).value;
    assert RequiredParents(intent)[0] == draft;
    assert ParentOk(d, owned, a, intent, RequiredParents(intent)[0]);
  }

  // ---- The relationships themselves ----

  /** An operation of this provider in the plan, with the intent it decodes to. */
  ghost predicate IsNode(d: Descriptors, operations: seq<Operation>, id: Text, intent: Intent) {
    exists o :: o in operations && d.owns(o) && o.operationId == id && d.intentOf(o) == Some(intent)
  }

  /** A parent that the operation depends on, in the same repository. */
  ghost predicate HasParent(d: Descriptors, operations: seq<Operation>, o: Operation, own: Intent, id: Text, parent: Intent) {
    && IsNode(d, operations, id, parent) && id in o.dependsOn
    && d.lower(own.repository) == d.lower(parent.repository)
  }

  /** Each kind of operation builds on parents of the right kind and tag, and a publication on every asset. */
  ghost predicate Related(d: Descriptors, operations: seq<Operation>, o: Operation, own: Intent) {
    match own
    case LightweightTag(_, _, _) => true
    case AnnotatedTag(_, _, _, _) => true
    case AnnotatedRef(_, tag, id) =>
      exists p :: HasParent(d, operations, o, own, id, p) && p.AnnotatedTag? && p.tag == tag
    case Draft(_, _, ExistingTag(_), _, _, _) => true
    case Draft(_, tag, ManagedTag(id), _, _, _) =>
      exists p :: HasParent(d, operations, o, own, id, p) && (p.LightweightTag? || p.AnnotatedRef?) && p.tag == tag
    case Asset(_, draft, _, _, _, _) => exists p :: HasParent(d, operations, o, own, draft, p) && p.Draft?
    case Publish(_, draft, assets) =>
      && (exists p :: HasParent(d, operations, o, own, draft, p) && p.Draft?)
      && (forall id :: id in assets ==> exists p :: HasParent(d, operations, o, own, id, p))
      && NoDuplicates(assets)
      && forall id :: id in assets <==> exists a :: IsNode(d, operations, id, a) && a.Asset? && a.draftOperation == draft
  }

  lemma NodeMeans(d: Descriptors, operations: seq<Operation>, id: Text, intent: Intent)
    requires UniqueIds(operations) && forall o :: o in operations && d.owns(o) ==> d.intentOf(o).Some?
    ensures IsNode(d, operations, id, intent) <==> IntentFor(d, Owned(d, operations), id) == Some(intent)
  {
    var owned := Owned(d, operations);
    OwnedUnique(d, operations);
    if o :| o in operations && d.owns(o) && o.operationId == id && d.intentOf(o) == Some(intent) {
      IntentOfOwned(d, owned, o);
    }
    if IntentFor(d, owned, id).Some? {
      var o := IntentHasOperation(d, owned, id);
    }
  }

  lemma {:induction false} IntentHasOperation(d: Descriptors, owned: seq<Operation>, id: Text) returns (o: Operation)
    requires IntentFor(d, owned, id).Some?
    ensures o in owned && o.operationId == id && d.intentOf(o) == IntentFor(d, owned, id)
  {
    o := owned[|owned| - 1];
    if o.operationId != id {
      var prior := owned[..|owned| - 1];
      assert owned == prior + [o];
      o := IntentHasOperation(d, prior, id);
    }
  }

  lemma ParentMeans(d: Descriptors, operations: seq<Operation>, o: Operation, own: Intent, id: Text)
    requires UniqueIds(operations) && forall o :: o in operations && d.owns(o) ==> d.intentOf(o).Some?
    ensures var owned := Owned(d, operations);
      ParentOk(d, owned, o, own, id)
      <==> IntentFor(d, owned, id).Some? && HasParent(d, operations, o, own, id, IntentFor(d, owned, id).value)
    ensures forall p :: HasParent(d, operations, o, own, id, p) ==> IntentFor(d, Owned(d, operations), id) == Some(p)
  {
    hide IntentFor, IsNode, Owned;
    forall p ensures IsNode(d, operations, id, p) <==> IntentFor(d, Owned(d, operations), id) == Some(p) {
      NodeMeans(d, operations, id, p);
    }
  }

  lemma AssetsMean(d: Descriptors, operations: seq<Operation>, draft: Text, assets: seq<Text>)
    requires UniqueIds(operations) && forall o :: o in operations && d.owns(o) ==> d.intentOf(o).Some?
    requires NoDuplicates(assets)
    ensures Sort(AssetsOf(d, Owned(d, operations), draft)) == Sort(assets)
       <==> forall id :: id in assets <==> exists a :: IsNode(d, operations, id, a) && a.Asset? && a.draftOperation == draft
  {
    hide Sort;
    var owned := Owned(d, operations);
    var all := AssetsOf(d, owned, draft);
    OwnedUnique(d, operations);
    AssetsOnce(d, owned, draft);
    SortCanonical(all, assets);
    SameElements(all, assets);
    forall id ensures id in all <==> exists a :: IsNode(d, operations, id, a) && a.Asset? && a.draftOperation == draft {
      if id in all {
        var o :| o in owned && o.operationId == id && d.intentOf(o).Some? && d.intentOf(o).value.Asset?
                 && d.intentOf(o).value.draftOperation == draft;
        assert IsNode(d, operations, id, d.intentOf(o).value);
      }
    }
  }

  lemma {:induction false} AssetsOnce(d: Descriptors, owned: seq<Operation>, draft: Text)
    requires UniqueIds(owned)
    ensures NoDuplicates(AssetsOf(d, owned, draft))
  {
    if owned != [] {
      var rest := owned[1..];
      assert forall i :: 0 <= i < |rest| ==> rest[i] == owned[i + 1];
      AssetsOnce(d, rest, draft);
      forall id | id in AssetsOf(d, rest, draft) ensures id != owned[0].operationId {
        var o :| o in rest && o.operationId == id;
        var i :| 0 <= i < |rest| && rest[i] == o;
      }
      assert owned[0].operationId !in AssetsOf(d, rest, draft);
    }
  }

  lemma EveryParent(d: Descriptors, owned: seq<Operation>, o: Operation, own: Intent)
    ensures (exists i :: 0 <= i < |RequiredParents(own)| && !ParentOk(d, owned, o, own, RequiredParents(own)[i]))
       <==> exists id :: id in RequiredParents(own) && !ParentOk(d, owned, o, own, id)
    ensures match own
      case AnnotatedRef(_, _, id) => RequiredParents(own) == [id] && id in RequiredParents(own)
      case Draft(_, _, ManagedTag(id), _, _, _) => RequiredParents(own) == [id] && id in RequiredParents(own)
      case Asset(_, draft, _, _, _, _) => RequiredParents(own) == [draft] && draft in RequiredParents(own)
      case Publish(_, draft, assets) => forall id :: id in RequiredParents(own) <==> id == draft || id in assets
      case _ => RequiredParents(own) == []
  {
    hide ParentOk;
  }

  lemma OperationMeans(d: Descriptors, operations: seq<Operation>, o: Operation, own: Intent)
    requires UniqueIds(operations) && forall o :: o in operations && d.owns(o) ==> d.intentOf(o).Some?
    requires d.intentOf(o) == Some(own)
    ensures OperationVerdict(d, Owned(d, operations), o).Ok? <==> Related(d, operations, o, own)
  {
    hide IntentFor, Owned, Sort, AssetsOf, ParentOk, HasParent, IsNode, UniqueIds, NoDuplicates;
    var owned := Owned(d, operations);
    forall id
      ensures ParentOk(d, owned, o, own, id)
         <==> IntentFor(d, owned, id).Some? && HasParent(d, operations, o, own, id, IntentFor(d, owned, id).value)
      ensures forall p :: HasParent(d, operations, o, own, id, p) ==> IntentFor(d, owned, id) == Some(p)
    {
      ParentMeans(d, operations, o, own, id);
    }
    EveryParent(d, owned, o, own);
    match own {
      case Publish(_, draft, assets) =>
        forall id | ParentOk(d, owned, o, own, id) ensures exists p :: HasParent(d, operations, o, own, id, p) {
          assert HasParent(d, operations, o, own, id, IntentFor(d, owned, id).value);
        }
        if NoDuplicates(assets) {
          AssetsMean(d, operations, draft, assets);
        }
      case _ =>
    }
  }

  /** `validatePlan` accepts exactly the graphs in which every operation decodes and has its relationships, and no
      two write to one place. */
  lemma GraphExactly(d: Descriptors, operations: seq<Operation>)
    requires UniqueIds(operations)
    ensures GraphOk(d, operations) <==>
      && (forall o :: o in operations && d.owns(o) ==> d.intentOf(o).Some? && Related(d, operations, o, d.intentOf(o).value))
      && (forall a, b :: a in operations && b in operations && d.owns(a) && d.owns(b) && a != b
                         && d.intentOf(a).Some? && d.intentOf(b).Some? ==>
            Coordinate(d, d.intentOf(a).value) != Coordinate(d, d.intentOf(b).value))
  {
    hide OperationVerdict, Related, Coordinate, UniqueIds;
    var owned := Owned(d, operations);
    OwnedUnique(d, operations);
    if forall o :: o in operations && d.owns(o) ==> d.intentOf(o).Some? {
      forall o | o in owned
        ensures OperationVerdict(d, owned, o).Ok? <==> Related(d, operations, o, d.intentOf(o).value)
      {
        OperationMeans(d, operations, o, d.intentOf(o).value);
      }
      PlacesApart(d, owned);
      assert forall i :: 0 <= i < |owned| ==> owned[i] in owned;
    } else {
      var o :| o in operations && d.owns(o) && d.intentOf(o).None?;
      var i :| 0 <= i < |owned| && owned[i] == o;
    }
  }

  lemma PlacesApart(d: Descriptors, owned: seq<Operation>)
    requires UniqueIds(owned) && forall o :: o in owned ==> d.intentOf(o).Some?
    ensures (forall i, j :: 0 <= i < j < |owned| ==>
               Coordinate(d, d.intentOf(owned[i]).value) != Coordinate(d, d.intentOf(owned[j]).value))
       <==> (forall a, b :: a in owned && b in owned && a != b ==>
               Coordinate(d, d.intentOf(a).value) != Coordinate(d, d.intentOf(b).value))
  {
    hide Coordinate;
    if forall a, b :: a in owned && b in owned && a != b ==>
         Coordinate(d, d.intentOf(a).value) != Coordinate(d, d.intentOf(b).value) {
      forall i, j | 0 <= i < j < |owned|
        ensures Coordinate(d, d.intentOf(owned[i]).value) != Coordinate(d, d.intentOf(owned[j]).value)
      {
        assert owned[i] in owned && owned[j] in owned && owned[i].operationId != owned[j].operationId;
      }
    }
  }
}
