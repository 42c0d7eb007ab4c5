/** Laws over recorded evidence: native correspondence, and one selected output per preparation. */
module Journal {
  import opened Texts
  import opened JsonData
  import opened ReleaseModel
  import opened Decision
  import opened HistoryLaws
  import opened Provider

  /** The start a dispatch identity refers to: the last one recorded under it. */
  function LastStart(events: History, dispatchId: Text): Option<Started> {
    if events == [] then None
    else
      var body := events[|events| - 1].body;
      if body.DispatchStarted? && body.start.dispatchId == dispatchId then Some(body.start)
      else LastStart(events[..|events| - 1], dispatchId)
  }

  lemma LastStartSnoc(events: History, e: Event, d: Text)
    ensures LastStart(events + [e], d)
         == if e.body.DispatchStarted? && e.body.start.dispatchId == d then Some(e.body.start) else LastStart(events, d)
  {
    assert (events + [e])[..|events|] == events;
  }

  function LastOperation(events: History, dispatchId: Text): Option<Text> {
    match LastStart(events, dispatchId)
    case None => None
    case Some(s) => Some(s.operationId)
  }

  // ---- Preparation selection ----

  datatype OutputKind = ReceiptOutput | ObservedOutput(kind: EvidenceKind)

  /** The canonical encoding of a selected output. */
  datatype Selection = Selection(kind: OutputKind, version: Text, value: Json)

  /** A Satisfied observation or receipt selects an output. */
  function SelectionOf(body: Body): Option<Selection> {
    match body
    case ObservationRecorded(o) =>
      if o.status == Satisfied then Some(Selection(ObservedOutput(o.evidenceKind), o.evidenceVersion, o.evidence)) else None
    case ReceiptAccepted(r) =>
      if r.completion == Satisfied then Some(Selection(ReceiptOutput, r.version, r.value)) else None
    case _ => None
  }

  /** The operation an output belongs to, given the history before it. */
  function SelectedOperation(prior: History, body: Body): Option<Text> {
    match body
    case ObservationRecorded(o) => Some(o.operationId)
    case ReceiptAccepted(r) => LastOperation(prior, r.dispatchId)
    case _ => None
  }

  ghost predicate Selects(events: History, i: nat, operationId: Text, selection: Selection) {
    && i < |events|
    && SelectionOf(events[i].body) == Some(selection)
    && SelectedOperation(events[..i], events[i].body) == Some(operationId)
  }

  /** Every output has its operation, and an operation never selects two different outputs. */
  ghost predicate OneSelection(events: History) {
    && (forall i :: 0 <= i < |events| && SelectionOf(events[i].body).Some?
             ==> SelectedOperation(events[..i], events[i].body).Some?)
    && (forall i, j, operationId, a, b ::
          Selects(events, i, operationId, a) && Selects(events, j, operationId, b) ==> a == b)
  }

  lemma SelectsSnoc(events: History, e: Event, i: nat, operationId: Text, a: Selection)
    ensures Selects(events + [e], i, operationId, a)
       <==> Selects(events, i, operationId, a)
            || (i == |events| && SelectionOf(e.body) == Some(a) && SelectedOperation(events, e.body) == Some(operationId))
  {
    if i < |events| {
      assert (events + [e])[..i] == events[..i];
    } else if i == |events| {
      assert (events + [e])[..i] == events;
    }
  }

  lemma OneSelectionSnoc(events: History, e: Event)
    ensures OneSelection(events + [e]) <==>
      && OneSelection(events)
      && (SelectionOf(e.body).Some? ==>
            && SelectedOperation(events, e.body).Some?
            && forall i, a :: Selects(events, i, SelectedOperation(events, e.body).value, a)
                          ==> a == SelectionOf(e.body).value)
  {
    var all := events + [e];
    assert all[..|events|] == events && all[|events|] == e;
    forall i | 0 <= i < |events| ensures all[i] == events[i] && all[..i] == events[..i] {
    }
    forall i: nat, operationId, a ensures Selects(all, i, operationId, a)
       <==> Selects(events, i, operationId, a)
            || (i == |events| && SelectionOf(e.body) == Some(a) && SelectedOperation(events, e.body) == Some(operationId))
    {
      SelectsSnoc(events, e, i, operationId, a);
    }
    if OneSelection(all) {
      forall i | 0 <= i < |events| && SelectionOf(events[i].body).Some?
        ensures SelectedOperation(events[..i], events[i].body).Some?
      {
        assert SelectionOf(all[i].body).Some?;
      }
      if SelectionOf(e.body).Some? {
        assert SelectionOf(all[|events|].body).Some?;
        assert Selects(all, |events|, SelectedOperation(events, e.body).value, SelectionOf(e.body).value);
      }
    }
  }

  lemma OneSelectionPrefix(events: History, k: nat)
    requires k <= |events| && OneSelection(events)
    ensures OneSelection(events[..k])
    decreases |events| - k
  {
    if k < |events| {
      OneSelectionPrefix(events, k + 1);
      assert events[..k + 1] == events[..k] + [events[k]];
      OneSelectionSnoc(events[..k], events[k]);
    } else {
      assert events[..k] == events;
    }
  }

  /** The map of selected outputs stands for the history it was filled from. */
  ghost predicate SelectedStandsFor(events: History, selected: map<Text, Selection>) {
    && (forall id :: id in selected ==> exists i :: Selects(events, i, id, selected[id]))
    && (forall i, id, a :: Selects(events, i, id, a) ==> id in selected && selected[id] == a)
  }

  lemma SelectedSnoc(events: History, e: Event, selected: map<Text, Selection>, selected': map<Text, Selection>)
    requires SelectedStandsFor(events, selected) && OneSelection(events)
    requires
      var selection, id := SelectionOf(e.body), SelectedOperation(events, e.body);
      if selection.None? then selected' == selected
      else id.Some? && selected' == selected[id.value := selection.value]
           && (id.value in selected ==> selected[id.value] == selection.value)
    ensures SelectedStandsFor(events + [e], selected') && OneSelection(events + [e])
  {
    var all := events + [e];
    OneSelectionSnoc(events, e);
    forall id | id in selected' ensures exists i :: Selects(all, i, id, selected'[id]) {
      if id in selected {
        var i :| Selects(events, i, id, selected[id]);
        SelectsSnoc(events, e, i, id, selected[id]);
      } else {
        SelectsSnoc(events, e, |events|, id, selected'[id]);
      }
    }
    forall i, id, a | Selects(all, i, id, a) ensures id in selected' && selected'[id] == a {
      SelectsSnoc(events, e, i, id, a);
    }
  }

  /** One pass over the history: it accepts exactly the histories with one selection. */
  method VerifyPreparationSelection(events: History) returns (r: Result<()>)
    ensures r.Ok? <==> OneSelection(events)
    ensures r.Fail? ==> r.refusal in {UnknownDispatch, PreparationSelected}
  {
    var selected: map<Text, Selection> := map[];
    var starts: map<Text, Text> := map[];
    for k := 0 to |events|
      invariant OneSelection(events[..k]) && SelectedStandsFor(events[..k], selected)
      invariant forall d :: LastOperation(events[..k], d) == if d in starts then Some(starts[d]) else None
    {
      ghost var prior := events[..k];
      var e := events[k];
      var body := e.body;
      assert events[..k + 1] == prior + [e];
      OneSelectionSnoc(prior, e);
      if OneSelection(events) {
        OneSelectionPrefix(events, k + 1);
      }
      ghost var before, starts0 := selected, starts;
      if body.DispatchStarted? {
        starts := starts[body.start.dispatchId := body.start.operationId];
      }
      forall d ensures LastOperation(prior + [e], d) == if d in starts then Some(starts[d]) else None {
        LastStartSnoc(prior, e, d);
        assert LastOperation(prior, d) == if d in starts0 then Some(starts0[d]) else None;
      }
      if (body.ObservationRecorded? && body.observation.status == Satisfied)
         || (body.ReceiptAccepted? && body.receipt.completion == Satisfied)
      {
        var operationId: Text;
        if body.ObservationRecorded? {
          operationId := body.observation.operationId;
        } else {
          assert LastOperation(prior, body.receipt.dispatchId).Some? <==> body.receipt.dispatchId in starts;
          if body.receipt.dispatchId !in starts {
            return Fail(UnknownDispatch);
          }
          operationId := starts[body.receipt.dispatchId];
        }
        var encoded :=
          if body.ObservationRecorded?
          then Selection(ObservedOutput(body.observation.evidenceKind), body.observation.evidenceVersion, body.observation.evidence)
          else Selection(ReceiptOutput, body.receipt.version, body.receipt.value);
        assert SelectedOperation(prior, body) == Some(operationId) && SelectionOf(body) == Some(encoded);
        if operationId in selected && selected[operationId] != encoded {
          return Fail(PreparationSelected);
        }
        selected := selected[operationId := encoded];
      }
      SelectedSnoc(prior, e, before, selected);
    }
    assert events[..|events|] == events;
    r := Ok(());
  }

  // ---- Native evidence ----

  /** What admission needs to know beside the history: the plan and its installed providers. */
  datatype Definitions = Definitions(plan: Plan, providers: seq<ProviderDefinition>, core: CoreCodecs)

  datatype Defined = Defined(operation: Operation, provider: ProviderDefinition)

  function Definition(defs: Definitions, operationId: Text): Result<Defined> {
    match FindOperation(defs.plan.operations, operationId)
    case None => Fail(UnknownOperation)
    case Some(operation) =>
      match FindProvider(defs.providers, operation.definitionId)
      case None => Fail(InvalidData)
      case Some(provider) => Ok(Defined(operation, provider))
  }

  /** The native receipt values associated with an operation, decoded, in order. */
  function DecodedReceipts(defs: Definitions, events: History, operationId: Text): seq<Json> {
    if events == [] then []
    else
      var prior, body := events[..|events| - 1], events[|events| - 1].body;
      var rest := DecodedReceipts(defs, prior, operationId);
      if !body.ReceiptAccepted? then rest
      else
        match LastStart(prior, body.receipt.dispatchId)
        case None => rest
        case Some(start) =>
          match Definition(defs, start.operationId)
          case Fail(_) => rest
          case Ok(d) =>
            match NativeEvidence(d.provider.receiptCodec, body.receipt.value)
            case Fail(_) => rest
            case Ok(value) => if d.operation.operationId == operationId then rest + [value] else rest
  }

  function StartLaw(defs: Definitions, prior: History, s: Started): Result<()> {
    match Definition(defs, s.operationId)
    case Fail(refusal) => Fail(refusal)
    case Ok(d) =>
      match EvidenceContext(defs.plan, d.operation, prior)
      case Fail(refusal) => Fail(refusal)
      case Ok(context) => AssertRequestCorresponds(d.provider, d.operation, s.request, context)
  }

  function ReceiptLaw(defs: Definitions, start: Started, r: Receipt): Result<()> {
    match Definition(defs, start.operationId)
    case Fail(refusal) => Fail(refusal)
    case Ok(d) =>
      if r.version != d.provider.receiptVersion then Fail(UnknownReceiptCodec)
      else
        match NativeEvidence(d.provider.receiptCodec, r.value)
        case Fail(refusal) => Fail(refusal)
        case Ok(receipt) =>
          if !d.provider.receiptCorresponds(d.operation, start.request, receipt) then Fail(ReceiptCorrespondence)
          else if d.provider.classifyReceipt(d.operation, start.request, receipt) != r.completion
            then Fail(ReceiptClassification)
          else Ok(())
  }

  function RejectionLaw(defs: Definitions, start: Started, r: Rejection): Result<()> {
    match Definition(defs, start.operationId)
    case Fail(refusal) => Fail(refusal)
    case Ok(d) =>
      if d.provider.rejection.None? || d.provider.rejection.value.version != r.proofVersion
        then Fail(UnknownRejectionCodec)
      else
        match NativeEvidence(d.provider.rejection.value.codec, r.proof)
        case Fail(refusal) => Fail(refusal)
        case Ok(proof) =>
          if d.provider.rejection.value.corresponds(d.operation, start.request, proof) then Ok(())
          else Fail(RejectionCorrespondence)
  }

  function DispatchErrorLaw(d: Defined, start: Option<Started>, o: Observed, evidence: Json): Result<()> {
    if start.None? || start.value.operationId != d.operation.operationId then Fail(ErrorCorrespondence)
    else if !IsCoreErrorVersion(o.evidenceVersion)
            && !(d.provider.dispatchError.Some?
                 && d.provider.dispatchError.value.corresponds(d.operation, start.value.request, evidence))
      then Fail(ErrorCorrespondence)
    else Ok(())
  }

  function ObservationLaw(defs: Definitions, prior: History, o: Observed): Result<()> {
    match Definition(defs, o.operationId)
    case Fail(refusal) => Fail(refusal)
    case Ok(d) =>
      match DecodeObservationEvidence(defs.core, d.provider, o)
      case Fail(refusal) => Fail(refusal)
      case Ok(evidence) =>
        if o.evidenceKind == DispatchError then
          DispatchErrorLaw(d, if o.dispatchId.None? then None else LastStart(prior, o.dispatchId.value), o, evidence)
        else
          match EvidenceContext(defs.plan, d.operation, prior)
          case Fail(refusal) => Fail(refusal)
          case Ok(context) =>
            var receipts := DecodedReceipts(defs, prior, d.operation.operationId);
            if d.provider.observation.value.classify(d.operation, evidence, receipts, context) != o.status
              then Fail(ObservationClassification)
            else Ok(())
  }

  /** The law for one event. It looks at nothing but the events strictly before it. */
  function NativeLaw(defs: Definitions, prior: History, body: Body): Result<()> {
    match body
    case DispatchStarted(s) => StartLaw(defs, prior, s)
    case ReceiptAccepted(r) =>
      (match LastStart(prior, r.dispatchId)
       case None => Fail(UnassociatedReceipt)
       case Some(start) => ReceiptLaw(defs, start, r))
    case DispatchRejectedBeforeCommit(r) =>
      (match LastStart(prior, r.dispatchId)
       case None => Fail(UnassociatedRejection)
       case Some(start) => RejectionLaw(defs, start, r))
    case ObservationRecorded(o) => ObservationLaw(defs, prior, o)
    case _ => Ok(())
  }

  /** The first refusal in history order, if any. */
  function NativeVerdict(defs: Definitions, events: History): Result<()> {
    if events == [] then Ok(())
    else
      match NativeVerdict(defs, events[..|events| - 1])
      case Fail(refusal) => Fail(refusal)
      case Ok(_) => NativeLaw(defs, events[..|events| - 1], events[|events| - 1].body)
  }

  lemma NativeSnoc(defs: Definitions, events: History, e: Event)
    ensures NativeVerdict(defs, events + [e]).Ok?
       <==> NativeVerdict(defs, events).Ok? && NativeLaw(defs, events, e.body).Ok?
    ensures NativeVerdict(defs, events).Fail? ==> NativeVerdict(defs, events + [e]) == NativeVerdict(defs, events)
    ensures NativeVerdict(defs, events).Ok? ==> NativeVerdict(defs, events + [e]) == NativeLaw(defs, events, e.body)
  {
    assert (events + [e])[..|events|] == events;
  }

  lemma {:induction false} NativeVerdictStands(defs: Definitions, events: History, k: nat)
    requires k <= |events| && NativeVerdict(defs, events[..k]).Fail?
    ensures NativeVerdict(defs, events) == NativeVerdict(defs, events[..k])
    decreases |events| - k
  {
    if k < |events| {
      assert events[..k + 1] == events[..k] + [events[k]];
      NativeSnoc(defs, events[..k], events[k]);
      NativeVerdictStands(defs, events, k + 1);
    } else {
      assert events[..k] == events;
    }
  }

  /** The pass that keeps two maps, `starts` and `receipts`. */
  method VerifyNativeEvidence(defs: Definitions, events: History) returns (r: Result<()>)
    ensures r == NativeVerdict(defs, events)
  {
    var starts: map<Text, Started> := map[];
    var receipts: map<Text, seq<Json>> := map[];
    for k := 0 to |events|
      invariant NativeVerdict(defs, events[..k]).Ok?
      invariant MapsStandFor(defs, events[..k], starts, receipts)
    {
      assert events[..k + 1] == events[..k] + [events[k]];
      NativeSnoc(defs, events[..k], events[k]);
      r, starts, receipts := VerifyEvent(defs, events[..k], events[k], starts, receipts);
      if r.Fail? {
        NativeVerdictStands(defs, events, k + 1);
        return r;
      }
    }
    assert events[..|events|] == events;
    r := Ok(());
  }

  /** The two maps stand for the history they were filled from. */
  ghost predicate MapsStandFor(
    defs: Definitions, events: History, starts: map<Text, Started>, receipts: map<Text, seq<Json>>)
  {
    && (forall d :: LastStart(events, d) == if d in starts then Some(starts[d]) else None)
    && (forall id :: DecodedReceipts(defs, events, id) == if id in receipts then receipts[id] else [])
  }

  method VerifyEvent(
      defs: Definitions, prior: History, event: Event, starts: map<Text, Started>, receipts: map<Text, seq<Json>>)
    returns (r: Result<()>, starts': map<Text, Started>, receipts': map<Text, seq<Json>>)
    requires MapsStandFor(defs, prior, starts, receipts)
    ensures r == NativeLaw(defs, prior, event.body)
    ensures r.Ok? ==> MapsStandFor(defs, prior + [event], starts', receipts')
  {
    var body := event.body;
    r, starts', receipts' := Ok(()), starts, receipts;
    assert (prior + [event])[..|prior|] == prior;
    if body.DispatchStarted? {
      r := VerifyStart(defs, prior, body.start);
      starts' := starts[body.start.dispatchId := body.start];
    } else if body.ReceiptAccepted? {
      if body.receipt.dispatchId !in starts {
        return Fail(UnassociatedReceipt), starts, receipts;
      }
      var start := starts[body.receipt.dispatchId];
      r := ReceiptLaw(defs, start, body.receipt);
      if r.Ok? {
        var d := Definition(defs, start.operationId).value;
        var receipt := NativeEvidence(d.provider.receiptCodec, body.receipt.value).value;
        var known := if d.operation.operationId in receipts then receipts[d.operation.operationId] else [];
        receipts' := receipts[d.operation.operationId := known + [receipt]];
      }
    } else if body.DispatchRejectedBeforeCommit? {
      r := if body.rejection.dispatchId !in starts then Fail(UnassociatedRejection)
           else RejectionLaw(defs, starts[body.rejection.dispatchId], body.rejection);
    } else if body.ObservationRecorded? {
      r := VerifyObservation(defs, prior, body.observation, starts, receipts);
    }
  }

  method VerifyStart(defs: Definitions, prior: History, s: Started) returns (r: Result<()>)
    ensures r == StartLaw(defs, prior, s)
  {
    var defined := Definition(defs, s.operationId);
    if defined.Fail? {
      return Fail(defined.refusal);
    }
    var context := EvidenceContext(defs.plan, defined.value.operation, prior);
    if context.Fail? {
      return Fail(context.refusal);
    }
    r := AssertRequestCorresponds(defined.value.provider, defined.value.operation, s.request, context.value);
  }

  method VerifyObservation(
      defs: Definitions, prior: History, o: Observed,
      starts: map<Text, Started>, receipts: map<Text, seq<Json>>)
    returns (r: Result<()>)
    requires MapsStandFor(defs, prior, starts, receipts)
    ensures r == ObservationLaw(defs, prior, o)
  {
    var defined := Definition(defs, o.operationId);
    if defined.Fail? {
      return Fail(defined.refusal);
    }
    var d := defined.value;
    var evidence := DecodeObservationEvidence(defs.core, d.provider, o);
    if evidence.Fail? {
      return Fail(evidence.refusal);
    }
    if o.evidenceKind == DispatchError {
      var start := if o.dispatchId.Some? && o.dispatchId.value in starts then Some(starts[o.dispatchId.value]) else None;
      return DispatchErrorLaw(d, start, o, evidence.value);
    }
    var context := EvidenceContext(defs.plan, d.operation, prior);
    if context.Fail? {
      return Fail(context.refusal);
    }
    var known := if d.operation.operationId in receipts then receipts[d.operation.operationId] else [];
    r := if d.provider.observation.value.classify(d.operation, evidence.value, known, context.value) != o.status
         then Fail(ObservationClassification) else Ok(());
  }

  // ---- Agreement of the third projection ----

  function Decodings(codec: Codec, receipts: seq<Receipt>): seq<Json> {
    if receipts == [] then []
    else
      var rest := Decodings(codec, receipts[..|receipts| - 1]);
      match NativeEvidence(codec, receipts[|receipts| - 1].value)
      case Fail(_) => rest
      case Ok(value) => rest + [value]
  }

  /** On lawful histories a dispatch identity refers to the one start recorded under it. */
  lemma {:induction false} LastStartIsTheStart(plan: Plan, events: History, d: Text)
    requires Lawful(plan, events)
    ensures LastStart(events, d).Some? <==> HasStart(events, d)
    ensures forall s :: LastStart(events, d) == Some(s) <==> s.dispatchId == d && s in FactsOf(events, s.operationId).starts
  {
    if events != [] {
      var prior, last := events[..|events| - 1], events[|events| - 1];
      assert events == prior + [last];
      LastStartIsTheStart(plan, prior, d);
      HasStartSnoc(prior, last, d);
      if last.body.DispatchStarted? && last.body.start.dispatchId == d {
        assert !HasStart(prior, d);
      }
    }
  }

  /** The receipts verification keeps, what providers see and what the decision laws count are
      one list: verification's list is the decoding of the facts' receipts, none dropped. */
  lemma {:induction false} DecodedReceiptsAreFacts(defs: Definitions, events: History, operation: Operation, provider: ProviderDefinition)
    requires Lawful(defs.plan, events) && NativeVerdict(defs, events).Ok?
    requires Definition(defs, operation.operationId) == Ok(Defined(operation, provider))
    ensures var f := FactsOf(events, operation.operationId);
      && DecodedReceipts(defs, events, operation.operationId) == Decodings(provider.receiptCodec, f.receipts)
      && |DecodedReceipts(defs, events, operation.operationId)| == |f.receipts|
  {
    if events != [] {
      var prior, last := events[..|events| - 1], events[|events| - 1];
      DecodedReceiptsAreFacts(defs, prior, operation, provider);
      if last.body.ReceiptAccepted? {
        ReceiptOfOperation(defs.plan, prior, last.body.receipt.dispatchId, operation.operationId);
        var f := FactsOf(prior, operation.operationId);
        assert (f.receipts + [last.body.receipt])[..|f.receipts|] == f.receipts;
      }
    }
  }

  /** A receipt belongs to an operation exactly when its dispatch was that operation's start. */
  lemma ReceiptOfOperation(plan: Plan, events: History, d: Text, operationId: Text)
    requires Lawful(plan, events) && LastStart(events, d).Some?
    ensures LastStart(events, d).value.operationId == operationId
       <==> Dispatched(FactsOf(events, operationId).starts, d)
  {
    hide FactsOf, Lawful, LastStart;
    LastStartIsTheStart(plan, events, d);
    var start := LastStart(events, d).value;
    var starts := FactsOf(events, operationId).starts;
    if Dispatched(starts, d) {
      var i :| 0 <= i < |starts| && starts[i].dispatchId == d;
      assert starts[i] in starts;
      StartsRecorded(events, operationId);
    }
  }
}
