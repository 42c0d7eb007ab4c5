/** A plan identity names one plan: with an injective digest, equal identities mean equal data. */
module PlanIdentityLaws {
  import opened Texts
  import opened JsonData
  import opened ReleaseModel
  import opened Utf8
  import opened Pairs
  import opened Identity
  import opened Provider
  import opened JsonRoundTrip
  import opened Dag
  import opened PlanIdentity

  // ---- Canonical text is well-formed UTF-16 ----

  lemma WellFormedJoin(a: Text, b: Text)
    requires WellFormed(a) && WellFormed(b)
    ensures WellFormed(a + b)
  {
    CodePointsConcat(a, b);
  }

  lemma {:induction false} EscapeWellFormed(t: Text)
    requires WellFormed(t)
    ensures WellFormed(Escape(t))
    decreases |t|
  {
    if t == [] {
    } else if |t| >= 2 && IsHigh(t[0]) && IsLow(t[1]) {
      EscapeWellFormed(t[2..]);
      assert t[1..][1..] == t[2..] && t[1..][0] == t[1];
      assert Escape(t) == [t[0]] + ([t[1]] + Escape(t[2..]));
      assert Escape(t)[2..] == Escape(t[2..]);
    } else {
      EscapeWellFormed(t[1..]);
      UnitWellFormed(t[0]);
      WellFormedJoin(EscapeUnit(t[0]), Escape(t[1..]));
    }
  }

  lemma UnitWellFormed(u: CodeUnit)
    requires !IsSurrogate(u)
    ensures WellFormed(EscapeUnit(u))
  {
    if |EscapeUnit(u)| == 1 {
      assert EscapeUnit(u)[1..] == [];
    } else {
      AsciiWellFormed(EscapeUnit(u));
    }
  }

  lemma QuoteWellFormed(t: Text)
    requires WellFormed(t)
    ensures WellFormed(Quote(t))
  {
    hide WellFormed, Escape;
    EscapeWellFormed(t);
    AsciiWellFormed([34]);
    WellFormedJoin([34], Escape(t));
    WellFormedJoin([34] + Escape(t), [34]);
  }

  ghost predicate AllWellFormed(ts: seq<Text>) {
    forall i :: 0 <= i < |ts| ==> WellFormed(ts[i])
  }

  lemma {:induction false} JoinWellFormed(ts: seq<Text>)
    requires AllWellFormed(ts)
    ensures WellFormed(JoinItems(ts))
  {
    hide WellFormed;
    AsciiWellFormed([]);
    if |ts| > 1 {
      JoinWellFormed(ts[1..]);
      AsciiWellFormed([44]);
      WellFormedJoin(ts[0], [44]);
      WellFormedJoin(ts[0] + [44], JoinItems(ts[1..]));
    }
  }

  ghost predicate FieldsWellFormed(fields: seq<(Text, Result<Text>)>) {
    forall i :: 0 <= i < |fields| && fields[i].1.Ok? ==> WellFormed(fields[i].1.value)
  }

  lemma {:induction false} MembersWellFormed(nfc: Text -> bool, fields: seq<(Text, Result<Text>)>)
    requires FieldsWellFormed(fields) && CanonicalMembers(nfc, fields).Ok?
    ensures AllWellFormed(CanonicalMembers(nfc, fields).value)
  {
    hide WellFormed, Quote;
    if fields != [] {
      MembersWellFormed(nfc, fields[1..]);
      QuoteOfCanonical(nfc, fields[0].0);
      AsciiWellFormed([58]);
      WellFormedJoin(CanonicalString(nfc, fields[0].0).value, [58]);
      WellFormedJoin(CanonicalString(nfc, fields[0].0).value + [58], fields[0].1.value);
    }
  }

  lemma QuoteOfCanonical(nfc: Text -> bool, t: Text)
    requires CanonicalString(nfc, t).Ok?
    ensures WellFormed(CanonicalString(nfc, t).value)
  {
    QuoteWellFormed(t);
  }

  lemma SortedWellFormed(fields: seq<(Text, Result<Text>)>)
    requires FieldsWellFormed(fields)
    ensures FieldsWellFormed(SortPairs(fields))
  {
    hide WellFormed;
    var sorted := SortPairs(fields);
    forall i | 0 <= i < |sorted| && sorted[i].1.Ok? ensures WellFormed(sorted[i].1.value) {
      SortMember(fields, sorted[i]);
      var k :| 0 <= k < |fields| && fields[k] == sorted[i];
    }
  }

  lemma {:induction false} CanonicalWellFormed(nfc: Text -> bool, v: Json)
    requires Canonical(nfc, v).Ok?
    ensures WellFormed(Canonical(nfc, v).value)
    decreases v, 1
  {
    hide WellFormed, Quote, Integer;
    match v {
      case Null => AsciiWellFormed(Canonical(nfc, v).value);
      case Bool(_) => AsciiWellFormed(Canonical(nfc, v).value);
      case Number(n) => IntegerAscii(n); AsciiWellFormed(Integer(n));
      case String(t) => QuoteOfCanonical(nfc, t);
      case Array(items) =>
        ItemsWellFormed(nfc, items);
        Enclosed(91, JoinItems(CanonicalItems(nfc, items).value), 93) by {
          JoinWellFormed(CanonicalItems(nfc, items).value);
        }
      case Object(members) =>
        ValuesWellFormed(nfc, members);
        SortedWellFormed(EncodedValues(nfc, members));
        MembersWellFormed(nfc, SortPairs(EncodedValues(nfc, members)));
        JoinWellFormed(CanonicalMembers(nfc, SortPairs(EncodedValues(nfc, members))).value);
        Enclosed(123, JoinItems(CanonicalMembers(nfc, SortPairs(EncodedValues(nfc, members))).value), 125);
    }
  }

  lemma IntegerAscii(n: int)
    ensures forall i :: 0 <= i < |Integer(n)| ==> Integer(n)[i] < 0x80
  {
  }

  lemma Enclosed(open: CodeUnit, t: Text, close: CodeUnit)
    requires WellFormed(t) && open < 0x80 && close < 0x80
    ensures WellFormed([open] + t + [close])
  {
    AsciiWellFormed([open]);
    AsciiWellFormed([close]);
    WellFormedJoin([open], t);
    WellFormedJoin([open] + t, [close]);
  }

  lemma {:induction false} ItemsWellFormed(nfc: Text -> bool, items: seq<Json>)
    requires CanonicalItems(nfc, items).Ok?
    ensures AllWellFormed(CanonicalItems(nfc, items).value)
    decreases items, 0
  {
    hide WellFormed, Canonical;
    if items != [] {
      CanonicalWellFormed(nfc, items[0]);
      ItemsWellFormed(nfc, items[1..]);
    }
  }

  lemma {:induction false} ValuesWellFormed(nfc: Text -> bool, members: seq<(Text, Json)>)
    ensures FieldsWellFormed(EncodedValues(nfc, members))
    decreases members, 0
  {
    hide WellFormed, Canonical;
    if members != [] {
      var first := members[0];
      assert first.1 < first;
      if Canonical(nfc, first.1).Ok? {
        CanonicalWellFormed(nfc, first.1);
      }
      ValuesWellFormed(nfc, members[1..]);
    }
  }

  // ---- Equal hashes mean equal data ----

  ghost predicate Injective(sha256: Bytes -> Text) {
    forall a, b :: sha256(a) == sha256(b) ==> a == b
  }

  /** Under one domain, two values with one digest are the same data. */
  lemma HashDeterminesData(
      nfc: Text -> bool, sha256: Bytes -> Text, domain: Text, v: Json, w: Json, room: int)
    requires Injective(sha256) && WellFormed(domain) && Data(v, room) && Data(w, room)
    requires HashCanonical(nfc, sha256, domain, v).Ok?
    requires HashCanonical(nfc, sha256, domain, v) == HashCanonical(nfc, sha256, domain, w)
    ensures Normal(v) == Normal(w)
  {
    hide Canonical, Data, Normal, Frame, WellFormed;
    CanonicalWellFormed(nfc, v);
    CanonicalWellFormed(nfc, w);
    FrameInjective(domain, Canonical(nfc, v).value, domain, Canonical(nfc, w).value);
    CanonicalInjective(nfc, v, w, room);
  }

  // ---- From equal data to equal fields ----

  lemma {:induction false} NormalPairAt(members: seq<(Text, Json)>)
    ensures |NormalPairs(members)| == |members|
    ensures forall i :: 0 <= i < |members| ==> NormalPairs(members)[i] == (members[i].0, Normal(members[i].1))
  {
    hide Normal;
    if members != [] {
      NormalPairAt(members[1..]);
    }
  }

  lemma {:induction false} NormalItemAt(items: seq<Json>)
    ensures forall i :: 0 <= i < |items| ==> NormalItems(items)[i] == Normal(items[i])
  {
    hide Normal;
    if items != [] {
      NormalItemAt(items[1..]);
    }
  }

  /** Two records written with the same keys are the same data only if their fields are. */
  lemma SameFields(a: seq<(Text, Json)>, b: seq<(Text, Json)>, i: nat)
    requires |a| == |b| && DistinctKeys(a) && (forall k :: 0 <= k < |a| ==> a[k].0 == b[k].0)
    requires Normal(Object(a)) == Normal(Object(b)) && i < |a|
    ensures Normal(a[i].1) == Normal(b[i].1)
  {
    NormalPairAt(a);
    NormalPairAt(b);
    var p := NormalPairs(a)[i];
    SortMember(NormalPairs(a), p);
    SortMember(NormalPairs(b), p);
    var j :| 0 <= j < |b| && NormalPairs(b)[j] == p;
    assert j == i;
  }

  lemma SameItems(a: seq<Json>, b: seq<Json>)
    requires Normal(Array(a)) == Normal(Array(b))
    ensures |a| == |b| && forall i :: 0 <= i < |a| ==> Normal(a[i]) == Normal(b[i])
  {
    NormalItemAt(a);
    NormalItemAt(b);
  }

  lemma SameStrings(a: seq<Text>, b: seq<Text>)
    requires Normal(Array(Strings(a))) == Normal(Array(Strings(b)))
    ensures a == b
  {
    SameItems(Strings(a), Strings(b));
    forall i | 0 <= i < |a| ensures i < |b| && a[i] == b[i] {
      assert Normal(Strings(a)[i]) == Normal(Strings(b)[i]);
    }
  }

  predicate SameOperation(o: Operation, p: Operation) {
    && o.operationId == p.operationId && o.definitionId == p.definitionId && o.intentVersion == p.intentVersion
    && Normal(o.intent) == Normal(p.intent) && o.dependsOn == p.dependsOn
  }

  lemma OperationKeysDistinct(o: Operation)
    ensures DistinctKeys(OperationJson(o).members)
  {
    assert |OPERATION_ID| == 11 && |DEFINITION_ID| == 12 && |INTENT_VERSION| == 13 && |INTENT| == 6 && |DEPENDS_ON| == 9;
  }

  lemma SameOperations(o: Operation, p: Operation)
    requires Normal(OperationJson(o)) == Normal(OperationJson(p))
    ensures SameOperation(o, p)
  {
    hide Normal;
    var a, b := OperationJson(o).members, OperationJson(p).members;
    OperationKeysDistinct(o);
    SameFields(a, b, 0);
    SameFields(a, b, 1);
    SameFields(a, b, 2);
    SameFields(a, b, 3);
    SameFields(a, b, 4);
    ScalarNormal(o.operationId, p.operationId);
    ScalarNormal(o.definitionId, p.definitionId);
    ScalarNormal(o.intentVersion, p.intentVersion);
    SameStrings(o.dependsOn, p.dependsOn);
  }

  lemma ScalarNormal(s: Text, t: Text)
    ensures Normal(String(s)) == Normal(String(t)) <==> s == t
  {
  }

  /** The record whose hash is the plan's identity. */
  function PlanRecord(p: Plan): seq<(Text, Json)> {
    PlanContent(p.bundleId, p.operations) + [(JOURNAL_ID, String(p.journalId))]
  }

  ghost predicate PlainIntents(p: Plan, room: int) {
    forall i :: 0 <= i < |p.operations| ==> Data(p.operations[i].intent, room)
  }

  lemma RecordIsData(p: Plan, room: int)
    requires room >= 1 && PlainIntents(p, room)
    ensures DistinctKeys(PlanRecord(p)) && Data(Object(PlanRecord(p)), room + 3)
  {
    assert |FORMAT| == 6 && |BUNDLE_ID| == 8 && |OPERATIONS| == 10 && |JOURNAL_ID| == 9;
    forall i | 0 <= i < |p.operations| ensures Data(OperationsJson(p.operations)[i], room + 1) {
      OperationIsData(p.operations[i], room);
    }
    assert Data(Array(OperationsJson(p.operations)), room + 2);
  }

  lemma OperationIsData(o: Operation, room: int)
    requires room >= 1 && Data(o.intent, room)
    ensures Data(OperationJson(o), room + 1)
  {
    OperationKeysDistinct(o);
  }

  lemma SameRecords(p: Plan, q: Plan)
    requires Normal(Object(PlanRecord(p))) == Normal(Object(PlanRecord(q)))
    requires DistinctKeys(PlanRecord(p))
    ensures p.bundleId == q.bundleId && p.journalId == q.journalId && |p.operations| == |q.operations|
    ensures forall i :: 0 <= i < |p.operations| ==> SameOperation(p.operations[i], q.operations[i])
  {
    hide Normal;
    var a, b := PlanRecord(p), PlanRecord(q);
    SameFields(a, b, 1);
    SameFields(a, b, 2);
    SameFields(a, b, 3);
    ScalarNormal(p.bundleId, q.bundleId);
    ScalarNormal(p.journalId, q.journalId);
    SameItems(OperationsJson(p.operations), OperationsJson(q.operations));
    forall i | 0 <= i < |p.operations| ensures SameOperation(p.operations[i], q.operations[i]) {
      assert Normal(OperationsJson(p.operations)[i]) == Normal(OperationsJson(q.operations)[i]);
      SameOperations(p.operations[i], q.operations[i]);
    }
  }

  /** Two plans that carry the identity of their own content, and the same one, are the same plan, up to
      how the members of their intents were written. */
  lemma PlanIdDeterminesPlan(nfc: Text -> bool, sha256: Bytes -> Text, core: CoreCodecs, p: Plan, q: Plan, room: int)
    requires Injective(sha256) && room >= 1 && PlainIntents(p, room) && PlainIntents(q, room)
    requires SortOperations(p.operations) == p.operations && SortOperations(q.operations) == q.operations
    requires PlanOf(HashingKernel(nfc, sha256, core), p.bundleId, p.operations, Some(p.journalId)) == Ok(p)
    requires PlanOf(HashingKernel(nfc, sha256, core), q.bundleId, q.operations, Some(q.journalId)) == Ok(q)
    requires p.planId == q.planId
    ensures p.bundleId == q.bundleId && p.journalId == q.journalId && |p.operations| == |q.operations|
    ensures forall i :: 0 <= i < |p.operations| ==> SameOperation(p.operations[i], q.operations[i])
  {
    hide Normal, Data, HashCanonical, WellFormed;
    RecordIsData(p, room);
    RecordIsData(q, room);
    AsciiWellFormed(PLAN_DOMAIN);
    HashDeterminesData(nfc, sha256, PLAN_DOMAIN, Object(PlanRecord(p)), Object(PlanRecord(q)), room + 3);
    SameRecords(p, q);
  }

  // ---- Exactly the created plans are loaded ----

  /** The installed provider, in the operation's version, writes the intent it reads as the same data. */
  ghost predicate Stable(nfc: Text -> bool, providers: seq<ProviderDefinition>, o: Operation) {
    exists p, intent ::
      && FindProvider(providers, o.definitionId) == Some(p) && p.intentVersion == o.intentVersion
      && p.intentCodec.decode(o.intent) == Some(intent) && SameData(nfc, p.intentCodec.encode(intent), o.intent)
  }

  ghost predicate EncodesPlainly(providers: seq<ProviderDefinition>, room: int) {
    forall p, v :: p in providers ==> Data(p.intentCodec.encode(v), room)
  }

  lemma ContentIsData(o: Operation, intent: Json, room: int)
    requires room >= 0 && Data(intent, room)
    ensures DistinctKeys(OperationContent(o.definitionId, o.intentVersion, intent).members)
    ensures Data(OperationContent(o.definitionId, o.intentVersion, intent), room + 1)
  {
    assert |DEFINITION_ID| == 12 && |INTENT_VERSION| == 13 && |INTENT| == 6;
  }

  /** Under one definition and version, contents hash alike exactly when the intents are the same data. */
  lemma SameContent(nfc: Text -> bool, sha256: Bytes -> Text, o: Operation, v: Json, w: Json, room: int)
    requires Injective(sha256) && room >= 0 && Data(v, room) && Data(w, room)
    requires HashCanonical(nfc, sha256, OPERATION_DOMAIN, OperationContent(o.definitionId, o.intentVersion, w)).Ok?
    ensures HashCanonical(nfc, sha256, OPERATION_DOMAIN, OperationContent(o.definitionId, o.intentVersion, v))
         == HashCanonical(nfc, sha256, OPERATION_DOMAIN, OperationContent(o.definitionId, o.intentVersion, w))
       <==> SameData(nfc, v, w)
  {
    hide Normal, Data, HashCanonical, WellFormed, Canonical;
    var a, b := OperationContent(o.definitionId, o.intentVersion, v), OperationContent(o.definitionId, o.intentVersion, w);
    ContentIsData(o, v, room);
    ContentIsData(o, w, room);
    AsciiWellFormed(OPERATION_DOMAIN);
    HashedIsCanonical(nfc, sha256, OPERATION_DOMAIN, b);
    IntentIsCanonical(nfc, o, w);
    CanonicalInjective(nfc, w, v, room);
    if HashCanonical(nfc, sha256, OPERATION_DOMAIN, a) == HashCanonical(nfc, sha256, OPERATION_DOMAIN, b) {
      HashDeterminesData(nfc, sha256, OPERATION_DOMAIN, b, a, room + 1);
      SameFields(b.members, a.members, 2);
    }
    if SameData(nfc, v, w) {
      SameTexts(nfc, o, v, w);
      HashOfText(nfc, sha256, OPERATION_DOMAIN, a, b);
    }
  }

  lemma HashedIsCanonical(nfc: Text -> bool, sha256: Bytes -> Text, domain: Text, v: Json)
    requires HashCanonical(nfc, sha256, domain, v).Ok?
    ensures Canonical(nfc, v).Ok?
  {
    hide Canonical;
  }

  lemma HashOfText(nfc: Text -> bool, sha256: Bytes -> Text, domain: Text, v: Json, w: Json)
    requires Canonical(nfc, v) == Canonical(nfc, w)
    ensures HashCanonical(nfc, sha256, domain, v) == HashCanonical(nfc, sha256, domain, w)
  {
    hide Canonical;
  }

  lemma IntentIsCanonical(nfc: Text -> bool, o: Operation, v: Json)
    requires Canonical(nfc, OperationContent(o.definitionId, o.intentVersion, v)).Ok?
    ensures Canonical(nfc, v).Ok?
  {
    CanonicalExists(nfc, OperationContent(o.definitionId, o.intentVersion, v));
    CanonicalExists(nfc, v);
    var members := OperationContent(o.definitionId, o.intentVersion, v).members;
    assert members[2].1 == v;
  }

  lemma MapThree(f: Json -> Result<Text>, a: seq<(Text, Json)>, b: seq<(Text, Json)>)
    requires |a| == 3 && |b| == 3 && forall i :: 0 <= i < 3 ==> a[i].0 == b[i].0 && f(a[i].1) == f(b[i].1)
    ensures MapPairs(f, a) == MapPairs(f, b)
  {
    var x, y := a[1..], b[1..];
    assert MapPairs(f, x[1..]) == MapPairs(f, y[1..]);
    assert MapPairs(f, x) == MapPairs(f, y);
  }

  lemma SameTexts(nfc: Text -> bool, o: Operation, v: Json, w: Json)
    requires Canonical(nfc, v) == Canonical(nfc, w)
    ensures Canonical(nfc, OperationContent(o.definitionId, o.intentVersion, v))
         == Canonical(nfc, OperationContent(o.definitionId, o.intentVersion, w))
  {
    var a := OperationContent(o.definitionId, o.intentVersion, v).members;
    var b := OperationContent(o.definitionId, o.intentVersion, w).members;
    EncodedValuesIsMap(nfc, a);
    EncodedValuesIsMap(nfc, b);
    MapThree(u => Canonical(nfc, u), a, b);
  }

  lemma StableRebuilds(nfc: Text -> bool, sha256: Bytes -> Text, core: CoreCodecs, providers: seq<ProviderDefinition>, o: Operation, room: int)
    requires Injective(sha256) && room >= 0 && EncodesPlainly(providers, room) && Data(o.intent, room)
    requires OperationIdOf(HashingKernel(nfc, sha256, core), o) == Ok(o.operationId)
    ensures Rebuilds(HashingKernel(nfc, sha256, core), providers, o) <==> Stable(nfc, providers, o)
  {
    hide HashCanonical, Data, SameData;
    var found := FindProvider(providers, o.definitionId);
    if found.Some? && found.value.intentVersion == o.intentVersion && found.value.intentCodec.decode(o.intent).Some? {
      var p := found.value;
      var encoded := p.intentCodec.encode(p.intentCodec.decode(o.intent).value);
      assert Data(encoded, room);
      SameContent(nfc, sha256, o, encoded, o.intent, room);
    }
  }

  /** With an injective digest, exactly those plans are loaded that carry the identity of their own valid and sorted
      content, whose operations every installed provider reads and writes as the same data, and which the
      providers accept. */
  lemma LoadsExactly(
      nfc: Text -> bool, sha256: Bytes -> Text, core: CoreCodecs, plan: Plan, providers: seq<ProviderDefinition>, room: int)
    requires Injective(sha256) && room >= 0 && PlainIntents(plan, room) && EncodesPlainly(providers, room)
    ensures var kernel := HashingKernel(nfc, sha256, core);
      Loads(kernel, plan, providers) <==>
        && DistinctProviders(providers)
        && ValidDag(plan.operations) && OwnIdentities(kernel, plan.operations)
        && PlanOf(kernel, plan.bundleId, plan.operations, Some(plan.journalId)) == Ok(plan)
        && (forall o :: o in plan.operations ==> Stable(nfc, providers, o))
        && (forall p :: p in providers ==> p.validatePlan(plan.operations))
  {
    hide Stable, Rebuilds, Data, HashCanonical, ValidDag;
    var kernel := HashingKernel(nfc, sha256, core);
    if OwnIdentities(kernel, plan.operations) {
      forall i | 0 <= i < |plan.operations|
        ensures Rebuilds(kernel, providers, plan.operations[i]) <==> Stable(nfc, providers, plan.operations[i])
      {
        StableRebuilds(nfc, sha256, core, providers, plan.operations[i], room);
      }
    }
    assert forall i :: 0 <= i < |plan.operations| ==> plan.operations[i] in plan.operations;
    assert forall i :: 0 <= i < |providers| ==> providers[i] in providers;
  }
}
