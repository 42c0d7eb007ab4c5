# Durable releases: a verified model

`ts-release` publishes the operations of a plan through a shared journal. Any number of runners may
work on one journal at once; each may crash anywhere, lose the race for a revision, or see an append
whose outcome is ambiguous and that lands long after its caller has gone. The only write the journal
offers is a compare-and-swap append. What may be appended is decided again from the whole history on
every read, and a send is allowed only on the call stack that owns a freshly recorded dispatch.

This project models that kernel and the pure algorithms it rests on, and proves what they promise.

**The journal and its laws.** `ReleaseModel` holds plans, events and refusal codes. `Decision` holds the
history laws: facts of an operation, its status, the dispatch decision, the append check and the history
machine. `HistoryLaws` and `RiskLaws` prove what every lawful history guarantees; `StatusLaws` and
`DispatchLaws` say what each status, each dispatch decision and each admitted append means in terms of the
recorded events alone. `Provider` and `Journal` hold provider contracts, native evidence and preparation
selection, and prove that the three places that project receipts out of a history agree; `NativeLaws` says
what admitted evidence means in terms of the providers' contracts. `Host` is the multi-plan read, `ReadLaws`
what an admitted journal guarantees, `Admission` the checks before a write and the theorem that they keep the
journal readable.

**The protocol.** `Protocol` is a step relation over one global state: the journal, every append ever
issued, the runners with their program counters, every event ever created, and a remote that may
commit or refuse each send. `ProtocolInvariant` proves the inductive invariant and `ProtocolSafety` the
guarantees over all runs. `Release` is the interpreter as a class that updates its own state in loops;
each of its effects is a step of the protocol, taken between arbitrary steps of everyone else, so the
guarantees hold of it. `Progress` shows what an undisturbed run leaves behind, and `RunRelease` ends
with the completion theorem. `Preparation` adds the racing completions of one preparation.

**Identities.** `Dag` is the depth-first search over dependencies. `PlanIdentity` and `PlanIdentityLaws`
are content-addressed plans. `Texts`, `Utf8`, `Pairs` and `Identity` are strings, the two orders on them,
canonical JSON and the hash frame. `JsonTokens`, `NativeJson` and `JsonRoundTrip` are the strict reader,
its exact grammar, and the proof that it and canonical JSON undo each other.

**Readers and printers.** `TreeLayout` resolves symbolic links; plain expansion without cycle detection is
its reference. `Substrings` and `Multipart` are the upload form, its boundary search and its recogniser.
`ArchivePaths`, `Zip`, `Tar` and `TarRoundTrip` are the archive readers. `GitHubGraph` and `GitHubEvidence`
are one provider's plan graph and its classification of a complete remote enumeration; `GitHubStatus` says
what each classification means.

Loops and objects of the source are methods and classes here, each proved against a function or a
predicate; what the source promises is then proved about that function or predicate. Where the code and
its own documentation could be read differently, the code is followed. Publication status is not
monotone: `RiskLaws.PublicationSatisfiedCanBeWithdrawn` shows a withdrawal, and
`RiskLaws.PublicationStaysSatisfiedIff` says exactly which next events keep Satisfied. Code-point order is
byte order only on strings without lone surrogates: `Utf8.LoneSurrogateBreaksByteOrder` shows a pair, and
`Utf8.WellFormedIffByteOrder` shows that every string with a lone surrogate is out of order with some
well-formed one.

Standards are used by section: RFC 8259 (sections 2 to 7) for JSON, RFC 3629 (section 3) for UTF-8,
RFC 2046 (section 5.1.1) and RFC 7578 (section 4.1) for multipart forms, sections 4.3.7, 4.3.12 and
4.3.16 of PKWARE APPNOTE.TXT for ZIP, and the "ustar Interchange Format" and "pax Interchange Format"
sections of the pax utility in IEEE Std 1003.1 for tar.

`dafny verify dfyconfig.toml` checks the whole project.

## Model

| member | source | states |
|---|---|---|
| ProtocolSafety.AtMostOneCommit | packages/ts-release/src/Release.ts:243-324 | In every reachable world of any number of crashing, racing runners, ambiguous and late appends included, an operation whose recorded requests are not core compare-and-swap and for which no risk was accepted has at most one send that the remote commits |
| ProtocolSafety.SentAtMostOnce | packages/ts-release/src/Release.ts:308-323 | No dispatch identity is ever sent twice, and everything sent was recorded as a start before |
| ProtocolSafety.PermitIsExclusive | packages/ts-release/src/Release.ts:309-319 | A call stack about to send holds a recorded dispatch that was never sent and that no other stack can send: AlreadyRecorded and a lost race give no permit |
| ProtocolSafety.CommittedIsUnresolved | packages/ts-release/src/internal/Decision.ts:99-114 | A committed send of an operation is one of its recorded starts that has no rejection, because rejections are recorded only for refused dispatches |
| ProtocolSafety.OnePublicationDispatches | packages/ts-release/src/internal/Host.ts:80-171 | When all hosts tag plan identities consistently, at most one publication plan ever records a start, across all runners sharing the journal |
| ProtocolSafety.OtherPublicationNotStarted | packages/ts-release/src/internal/Host.ts:110-168 | A host that passes its checks before a publication start has seen no start of another publication in the journal |
| ProtocolSafety.SupersededStaysUndispatched | packages/ts-release/src/internal/Host.ts:159-168 | "Superseded without any dispatch" is kept by every later step of every runner |
| ProtocolSafety.OwnRunsNeverWedge | packages/ts-release/src/Release.ts:47-54 | Once a host admits the journal, whatever its own runners append keeps it admitted on every prefix and for every plan it registers, whatever decision machine was supplied |
| ProtocolSafety.OwnJournalIsReadable | packages/ts-release/src/internal/Host.ts:123-171 | In every reachable world a non-empty journal whose writers share one host is admitted by that host on every prefix and for every plan it registers, with no assumption about earlier reads |
| ProtocolSafety.FactsRecordedExactlyOnce | packages/ts-release/src/Release.ts:33-58 | After appendFact succeeds the journal holds exactly one event of that identity and it is this one; after it fails it holds at most one, and no other content under that identity |
| ProtocolSafety.JournalLawful | packages/ts-release/src/Release.ts:290-303 | Each plan's own events in every reachable journal form a lawful history |
| ProtocolSafety.EachPreparationSelectsOnce | packages/ts-release/src/Journal.ts:40-67 | Under the invariant of reachable worlds, with plans tagged consistently, every prefix of the journal keeps one selection for each preparation, whichever hosts and runners wrote it |
| ProtocolSafety.PreparationsAgree | packages/ts-release/src/Journal.ts:40-67 | In every reachable world any two Satisfied outputs of one preparation, receipts or observations, are for one operation and are the same in channel, version and value |
| ProtocolInvariant.InvAlways | packages/ts-release/src/Journal.ts:10-21 | Under the store contract every reachable world keeps the invariant: each recorded event was vetted on exactly the prefix before it, no two stacks hold one unsent dispatch, sends are distinct and recorded first, nothing refused is committed |
| ProtocolInvariant.OwnershipKept | packages/ts-release/src/Release.ts:317-319 | Every step keeps: no two call stacks hold one dispatch, and a held dispatch is unsent |
| Admission.WriteKeepsJournalAdmitted | packages/ts-release/src/internal/Host.ts:123-171 | Write-side checks imply read-side checks: appending an event that passed them to the snapshot they were made on keeps the whole multi-plan journal admitted |
| Admission.ReadsAgree | packages/ts-release/src/internal/Host.ts:84-122 | The journals a host admits do not depend on which of its registered plans asks |
| HistoryLaws.ReplayBound | packages/ts-release/src/internal/Decision.ts:78-128 | In every admitted history an operation's unresolved starts that are not core compare-and-swap number at most one more than its accepted-risk starts, and so do its distinct unresolved requests |
| RiskLaws.AtMostOneUnresolved | packages/ts-release/src/internal/Decision.ts:99-114 | Without accepted risk and without core compare-and-swap, at most one start of an operation lacks a rejection |
| RiskLaws.ConsumedFilterRedundant | packages/ts-release/src/internal/Decision.ts:115-124 | On lawful histories the test that a risk decision is unused never changes which decision is found |
| RiskLaws.RiskJustifiesOneStart | packages/ts-release/src/internal/Decision.ts:185-208 | Two starts of one history never rest on the same risk decision |
| RiskLaws.DecisionRecordedOnce | packages/ts-release/src/internal/Decision.ts:201-207 | A decision identity is recorded at most once in a lawful history |
| RiskLaws.RiskBehind | packages/ts-release/src/internal/Decision.ts:115-127 | Every accepted-risk start has an earlier recorded decision of that identity, for its operation, not spent before |
| RiskLaws.ReceiptClosesOperation | packages/ts-release/src/internal/Decision.ts:99-100 | Once an operation has a receipt, no lawful extension adds a start to it |
| RiskLaws.SupersessionIsFinal | packages/ts-release/src/internal/Decision.ts:214-217 | After a supersession no lawful extension contains a start, and the plan stays superseded |
| RiskLaws.PreparationStatusIsSticky | packages/ts-release/src/internal/Decision.ts:64-69 | In preparation scope a Satisfied status survives every extension that does not supersede the plan |
| RiskLaws.PublicationStaysSatisfiedIff | packages/ts-release/src/internal/Decision.ts:62-84 | A Satisfied publication is still Satisfied after one more event exactly when that event is no supersession and no look at the operation that reports something else, where a look that finds nothing definite withdraws only if no Satisfied receipt is on record |
| RiskLaws.PublicationSatisfiedThroughoutIff | packages/ts-release/src/internal/Decision.ts:62-84 | Over any extension it is Satisfied at every moment exactly when no event of the extension withdraws it |
| RiskLaws.PublicationSatisfiedCanBeWithdrawn | packages/ts-release/src/internal/Decision.ts:70-72 | Publication status is not monotone: a concrete history where a later Inconclusive observation withdraws Satisfied |
| StatusLaws.StatusMeans | packages/ts-release/src/internal/Decision.ts:57-77 | In a lawful history an operation has a status exactly when the recorded events say so, for every status and both kinds of scope: superseded; a Satisfied look or receipt of a preparation; a definite last look; otherwise Satisfied or Pending by its receipts, Unattempted without an attempt, Rejected when every attempt has a recorded rejection, Inconclusive when one has none |
| StatusLaws.CountsMean | packages/ts-release/src/internal/Decision.ts:220-239 | The report's entry for an operation has the status the recorded events say, and counts its recorded attempts, the receipts of these, and the looks at it |
| StatusLaws.ReceiptsRecorded | packages/ts-release/src/internal/Decision.ts:46-47 | The receipts counted for an operation are exactly the recorded receipts of its own attempts |
| StatusLaws.OpenIsUnresolved | packages/ts-release/src/internal/Decision.ts:102 | The unresolved starts are exactly the recorded attempts without a recorded rejection |
| DispatchLaws.DispatchMeans | packages/ts-release/src/internal/Decision.ts:78-128 | A dispatch is decided on a basis exactly when the operation is in the plan, nothing ends it, everything it depends on is Satisfied, it has no receipt, and the recorded events warrant that basis: no attempt, all attempts rejected, the same protected request, or the first unspent, unexpired risk decision about this request and exactly these attempts |
| DispatchLaws.OtherDecisions | packages/ts-release/src/internal/Decision.ts:86-98 | When the other answers are given: an ended operation, a dependency that is not Satisfied, a request still to be prepared, and risk acceptance exactly when no basis is warranted |
| DispatchLaws.StartWasReady | packages/ts-release/src/internal/Decision.ts:145-166 | Every start of a lawful history was of a ready operation: all its dependencies were Satisfied then, nothing had ended it, it had no receipt and its basis was warranted |
| DispatchLaws.AdmittedExactly | packages/ts-release/src/internal/Decision.ts:129-219 | A history is admitted exactly when each event may follow those before it, said of every kind of event by the recorded events |
| DispatchLaws.SortLists | packages/ts-release/src/internal/Decision.ts:104-113 | The sorted identities of a basis list exactly the attempts meant, once each, and no other list does |
| HistoryLaws.LawfulFactsAgree | packages/ts-release/src/internal/Decision.ts:34-56 | Starts of an operation have distinct identities; its rejections and receipts are exactly the recorded ones of its own dispatches |
| HistoryLaws.LawfulDistinctStarts | packages/ts-release/src/internal/Decision.ts:148-154 | Dispatch identities are unique across all operations of a lawful history |
| HistoryLaws.EvidenceFollowsStart | packages/ts-release/src/internal/Decision.ts:167-184 | A recorded receipt or rejection has its start, and no dispatch has both |
| Decision.OperationFacts | packages/ts-release/src/internal/Decision.ts:34-56 | The single pass with its own set of dispatch identities computes the facts defined event by event |
| Decision.MachineExists | packages/ts-release/src/internal/Decision.ts:242-262 | The history machine exists exactly for the admitted histories, and then it is that history |
| Provider.EvidenceIsFacts | packages/ts-release/src/Provider.ts:107-140 | What providers see of an operation is exactly what the decision laws count, in order |
| Journal.DecodedReceiptsAreFacts | packages/ts-release/src/Journal.ts:102-118 | The receipts verification keeps are the decodings of the receipts the decision laws count, none dropped |
| Journal.LastStartIsTheStart | packages/ts-release/src/Journal.ts:86-90 | In a lawful history the start a dispatch identity refers to is the one recorded under it |
| Journal.VerifyNativeEvidence | packages/ts-release/src/Journal.ts:69-160 | The pass with its two maps gives the first refusal of a law that reads nothing but the strict prefix before each event |
| NativeLaws.NativeExactly | packages/ts-release/src/Journal.ts:69-160 | A history is natively admitted exactly when every event keeps its provider's contract against the last start recorded before it: a start corresponds in the context of its time; a receipt has the installed version and exact encoding, corresponds and completes as classified; a rejection carries a proof about that very request; a dispatch error names a dispatch of its operation; an observation is classified from the receipts and context of its time |
| NativeLaws.ClosedByItsOwnProof | packages/ts-release/src/Journal.ts:119-130 | In an admitted lawful history a rejection rests on an exactly encoded proof that corresponds to the request of the one start under its identity |
| NativeLaws.ContextMeans | packages/ts-release/src/Provider.ts:107-140 | A provider is shown exactly the receipts and observations counted for its operation and, in order, for each dependency |
| Journal.VerifyPreparationSelection | packages/ts-release/src/Journal.ts:40-67 | The pass accepts exactly the histories in which every output has its operation and no operation selects two different outputs |
| NativeLaws.SelectionMeans | packages/ts-release/src/Journal.ts:40-67 | One selection means: every Satisfied receipt belongs to a recorded dispatch, and two Satisfied outputs of one operation agree in channel, version and value |
| Host.Register | packages/ts-release/src/internal/Host.ts:77-122 | The configuration checks accept exactly the hosts whose plans load, bind this journal, are distinct and contain at most one publication |
| Host.AdmitHistory | packages/ts-release/src/internal/Host.ts:130-168 | The history checks accept exactly the journals with an honest envelope whose every registered plan passes its own laws |
| Host.Read | packages/ts-release/src/internal/Host.ts:71-179 | A read succeeds exactly when clock, revision, configuration, history and machine are admitted, and returns that snapshot with the machine of the asking plan |
| ReadLaws.ConfiguredMeans | packages/ts-release/src/internal/Host.ts:77-122 | A host is configured for a plan exactly when the plan loads or its journal context is in order: all plans load into one journal under different identities, at most one publishes, preparations are single operations without dependencies |
| ReadLaws.ReadMeans | packages/ts-release/src/internal/Host.ts:71-171 | A journal is admitted exactly when the host is configured, every event has an identity of its own, this journal and a registered plan, and each plan's own events may follow each other, keep their providers' contracts and carry the fingerprints of their own requests |
| Release.ReleaseRun.RunRelease | packages/ts-release/src/Release.ts:204-418 | Every run is a run of the protocol, visits and sends each operation at most once, never without authority and never beyond the limit; alone, on an empty journal, with a store and transport that always accept, it ends with every operation of any validated graph Satisfied after exactly one dispatch each. When it returns a report, that is the kernel's own projection of the final journal, whatever machine was supplied: one entry per operation in plan order, with the status and the counts of the recorded events; the outcome of every send is on record; every visit found all dependencies Satisfied and, if asked to, put its look on record; and every operation not visited was found blocked |
| Release.ReleaseRun.Pass | packages/ts-release/src/Release.ts:222-414 | One pass keeps the tally; undisturbed, it visits every operation whose dependencies had been visited |
| Release.ReleaseRun.Visit | packages/ts-release/src/Release.ts:235-413 | At most one send of this operation, under a dispatch never sent before, only with authority and below the limit; a look that was asked for and the outcome of the send are on record |
| Release.ReleaseRun.DecideDispatch | packages/ts-release/src/Release.ts:263-289 | A dispatch is decided on a freshly admitted prefix under a fresh identity, for this operation and this request, on which the machine of that prefix decides and which it takes |
| Release.ReleaseRun.AppendDecided | packages/ts-release/src/Release.ts:304-318 | A permit is owned exactly when this very append was recorded; otherwise the stack is idle again; after an ambiguous answer it is owned exactly when the event is found recorded |
| Release.ReleaseRun.SendRequest | packages/ts-release/src/Release.ts:319-324 | One send consumes the permit; the dispatch was not sent before |
| Release.ReleaseRun.Settle | packages/ts-release/src/Release.ts:325-413 | Whatever the outcome, exactly its lawful fact is put on record or a refusal is returned, and the stack is idle again |
| Release.ReleaseRun.OutcomeMeans | packages/ts-release/src/Release.ts:325-413 | A receipt is recorded exactly for an accepted answer in exact native encoding, a rejection exactly for a refusal that the provider has proofs for; every other result leaves an Inconclusive error of this dispatch, and only a native error without an installed codec is refused |
| Release.ReleaseRun.AppendFact | packages/ts-release/src/Release.ts:33-58 | The retry loop ends with the fact recorded or given up, under one identity throughout |
| Release.ReleaseRun.SupersedePlan | packages/ts-release/src/Release.ts:419-430 | Without authority nothing changes; on success the plan is superseded in the journal for this reason |
| Release.ReleaseRun.AcceptRisk | packages/ts-release/src/Release.ts:431-442 | Without authority nothing changes; on success the decision is recorded for the plan |
| Release.VerifyWrite | packages/ts-release/src/Release.ts:47-52 | The checks before an append accept exactly the events the admission theorem is about |
| Release.TallyStep | packages/ts-release/src/Release.ts:219-243 | One visit keeps: operations visited and sent at most once, under distinct dispatches, within authority and limit |
| Progress.VisitIsOrderly | packages/ts-release/src/Release.ts:324-344 | The start and the receipt of one undisturbed visit leave that operation, and no other, dispatched once and Satisfied |
| Progress.StartIsAdmitted | packages/ts-release/src/internal/Decision.ts:145-166 | The dispatch decided for an untouched operation whose dependencies ran passes every write-side check |
| Progress.SomeOperationReady | packages/ts-release/src/Plan.ts:39-52 | In a validated graph some unvisited operation has only visited dependencies, whatever the order of identities |
| Preparation.CompletionsAgree | packages/ts-release/src/apple/Preparation.ts:51-58 | Two completions of one preparation, at any two moments of one shared run, see the same selected output |
| Preparation.EveryOutputIsSelected | packages/ts-release/src/apple/Preparation.ts:93-113 | Every Satisfied output recorded by anyone at any later moment of a shared run has the operation, version and bytes of the one a completion saw selected |
| Preparation.SelectedStaysSatisfied | packages/ts-release/src/internal/Decision.ts:64-69 | A selected preparation is Satisfied in every extension that does not supersede it |
| Preparation.RunPreparation | packages/ts-release/src/apple/Preparation.ts:62-114 | A completion that returns with Satisfied evidence leaves a selection in the journal: its own, or the one that was there first; one that returns without evidence found a selection or no submission; evidence comes from a recorded submission and is on record or yields to a selection |
| Dag.ValidateDag | packages/ts-release/src/Plan.ts:28-52 | Accepts exactly when identities are unique, dependencies strictly sorted and present, and a topological rank exists; each refusal names its true cause; the search ends on cyclic input too |
| Dag.SortedWithoutDuplicates | packages/ts-release/src/Plan.ts:33-36 | Comparing the duplicate-free list with its sorted copy tests exactly strict order |
| PlanIdentity.CreatePlan | packages/ts-release/src/Plan.ts:58-83 | Succeeds exactly on valid graphs of operations that carry their own identities and hash |
| PlanIdentity.LoadPlan | packages/ts-release/src/Plan.ts:93-128 | Admits exactly the sorted plans whose operations and identity rebuild under the installed providers, and returns them unchanged |
| PlanIdentityLaws.LoadsExactly | packages/ts-release/src/Plan.ts:93-128 | With an injective digest, exactly those plans load that carry the identity of their own valid, sorted content, whose intents the installed providers read and write as the same data, and which the providers accept |
| PlanIdentity.PlanIgnoresOperationOrder | packages/ts-release/src/Plan.ts:53-57 | Every permutation of the operations gives the same plan and the same identity |
| PlanIdentity.CreatedPlanLoads | packages/ts-release/src/Plan.ts:93-128 | What createPlan produced is admitted by loadPlan when the provider codecs re-encode stably |
| PlanIdentityLaws.PlanIdDeterminesPlan | packages/ts-release/src/Plan.ts:58-83 | With an injective digest, plans that carry one identity of their own content are the same plan, up to the order in which intents wrote their members |
| PlanIdentityLaws.CanonicalWellFormed | packages/ts-release/src/internal/Identity.ts:18-64 | Canonical text never contains an unpaired surrogate, so its bytes determine it |
| Utf8.CompareText | packages/ts-release/src/internal/Identity.ts:5-16 | The early-exit loop is the lexicographic comparison of the code points |
| Utf8.CompareTextIsByteOrder | packages/ts-release/src/internal/Identity.ts:4-16 | On strings without lone surrogates the comparison has the sign of the byte order of their UTF-8 encodings, for all lengths and mixed scalar sizes |
| Utf8.WellFormedIffByteOrder | packages/ts-release/src/internal/Identity.ts:4-16 | A string compares as its UTF-8 bytes do with every well-formed string exactly when it is itself well formed |
| Utf8.ByteOrderIsScalarOrder | packages/ts-release/src/internal/Identity.ts:4-16 | On every pair of strings the byte order is the order of the code points with each lone surrogate read as U+FFFD |
| Utf8.LoneSurrogateBreaksByteOrder | packages/ts-release/src/internal/Identity.ts:4-16 | A lone surrogate compares against the byte order: the hypothesis is needed |
| Identity.CanonicalIgnoresMemberOrder | packages/ts-release/src/internal/Identity.ts:55-58 | The order in which members were written never shows in canonical text |
| Identity.FrameInjective | packages/ts-release/src/internal/Identity.ts:109-117 | The length-prefixed frame is injective in domain and encoding |
| JsonRoundTrip.DecodeOfCanonical | packages/ts-release/src/internal/NativeJson.ts:38-95 | For every admitted value nested at most 128 deep, decoding its canonical text gives the value back, members in key order |
| JsonRoundTrip.CanonicalInjective | packages/ts-release/src/internal/Identity.ts:18-64 | Two values have one canonical text exactly when they are the same data |
| JsonRoundTrip.NormalIsSameText | packages/ts-release/src/internal/Identity.ts:55-58 | Putting the members of every object in key order does not change the canonical text |
| JsonRoundTrip.DecodedIsCanonicalData | packages/ts-release/src/internal/NativeJson.ts:45-90 | Whatever is decoded has a canonical text, hence distinct keys, NFC strings and safe integers, and reading that text gives the same data |
| JsonRoundTrip.CanonicalExists | packages/ts-release/src/internal/Identity.ts:18-64 | Exactly the values with normalised strings, no unpaired surrogate and safe integers have a canonical text |
| JsonRoundTrip.EscapeIsShortest | packages/ts-release/src/internal/Identity.ts:27 | The canonical spelling of a string is the shortest that section 7 of RFC 8259 allows |
| NativeJson.DecodesExactlyTheGrammar | packages/ts-release/src/internal/NativeJson.ts:36-95 | A text is accepted with a value exactly when it is RFC 8259 JSON (sections 2 to 7, integers only) denoting it, within the reader's restrictions on depth, keys, strings and numbers |
| NativeJson.StrictKeysDistinct | packages/ts-release/src/internal/NativeJson.ts:61-71 | Threading the set of keys excludes exactly the duplicate decoded keys |
| NativeJson.DecodeJson | packages/ts-release/src/internal/NativeJson.ts:38-95 | The reader with its shared cursor computes the functional descent, refusal by refusal |
| NativeJson.JsonReader.Value | packages/ts-release/src/internal/NativeJson.ts:56-91 | From any cursor position the recursive check follows the functional parse and stops where it stops |
| JsonTokens.Tokenize | packages/ts-release/src/internal/NativeJson.ts:3-35 | The index loop computes the token list, or the refusal |
| JsonTokens.SkipString | packages/ts-release/src/internal/NativeJson.ts:8-24 | The inner loop ends just after the closing quote, exactly when the characters between are those of section 7 |
| JsonTokens.LexIsSound | packages/ts-release/src/internal/NativeJson.ts:3-35 | Tokens accepted are tokens of RFC 8259, and the text is them with whitespace between |
| JsonTokens.LexIsComplete | packages/ts-release/src/internal/NativeJson.ts:3-35 | Every layout of tokens with optional whitespace, no two integers touching, is tokenized as those tokens |
| TreeLayout.ResolveIsExact | packages/ts-release/src/internal/TreeLayout.ts:20-49 | The resolver reports a cycle exactly when plain segment-by-segment expansion never ends, and otherwise returns exactly what that expansion ends with |
| TreeLayout.ResolveLink | packages/ts-release/src/internal/TreeLayout.ts:20-49 | The loop that calls itself for each link terminates on every finite entry map and computes the recursive definition |
| TreeLayout.ResolvedIsLinkFree | packages/ts-release/src/internal/TreeLayout.ts:26-48 | A resolved link is a path inside the tree, free of links, whose proper prefixes are recorded directories |
| TreeLayout.MeetingAgainDiverges | packages/ts-release/src/internal/TreeLayout.ts:43-46 | A link met again while it is being expanded is met forever |
| TreeLayout.JoinInjective | packages/ts-release/src/internal/TreeLayout.ts:36-37 | A name in the tree is the join of one segment list only |
| TreeLayout.CheckLinks | packages/ts-release/src/internal/TreeLayout.ts:61-63 | A tree is accepted exactly when every link's expansion ends on such a path; a reported cycle means some expansion never ends |
| Multipart.BuiltBodyReadsBack | packages/pypi/src/Wire.ts:22-51 | The body is unambiguous: splitting it on its announced boundary gives back exactly the entries, in order, and the file bytes |
| Multipart.FindBoundary | packages/pypi/src/Wire.ts:22-29 | The search ends when one candidate more than there are places in the values is distinct, as distinct candidates need distinct places; it ends with the first candidate that the values do not contain |
| Multipart.DistinctnessIsPossible | packages/pypi/src/Wire.ts:27-29 | Digests exist under which any number of candidates below 10^63 is distinct, so the search is never asked for the impossible |
| Multipart.ChosenBoundary | packages/pypi/src/Wire.ts:22-37 | The chosen boundary occurs in no field value and not in the content |
| Multipart.BuildBody | packages/pypi/src/Wire.ts:7-58 | Succeeds exactly on admitted content and builds the form for it |
| Multipart.OwnsBody | packages/pypi/src/Wire.ts:77-97 | Within the size bound the recogniser accepts every body that is built for the intent and nothing else |
| Multipart.OwnsRequest | packages/pypi/src/Wire.ts:59-97 | A request is owned exactly when its facts and body are those of the upload built for the intent of its scope: address, method, principal, headers with the announced boundary, digest and length |
| Substrings.SplitOfGlue | packages/pypi/src/Wire.ts:38-51 | Splitting undoes gluing when the delimiter cannot overlap itself and lies in no segment |
| Zip.ReadZip | packages/pypi/src/Archive.ts:10-88 | Accepts exactly the archives whose end record, central records, local headers, spans, names and sizes are in order, and returns their files |
| Zip.FindEnd | packages/pypi/src/Archive.ts:14-27 | The backward search finds the end record if there is an admissible one, and there is at most one |
| Zip.RecordsTile | packages/pypi/src/Archive.ts:28-86 | Every byte of the central directory lies in exactly one record |
| Zip.SpansDisjoint | packages/pypi/src/Archive.ts:58-63 | No byte belongs to two members, and members lie below the directory |
| Zip.FileIsMember | packages/pypi/src/Archive.ts:71-83 | A returned file is the body of a member of that name that is not a folder |
| Zip.MemberMeans | packages/pypi/src/Archive.ts:37-83 | A member is accepted exactly when its central and local headers say the same of it, field by field, and its stored or inflated data has the declared length and CRC |
| Zip.FileIsDescribed | packages/pypi/src/Archive.ts:37-83 | Every returned file is what the headers of an accepted member describe |
| Zip.MemberIsFile | packages/pypi/src/Archive.ts:71-83 | Every member that is not a folder is returned with its body: none is lost or overwritten |
| Zip.FilesWithinBound | packages/pypi/src/Archive.ts:71-83 | The lengths of any distinct returned files add up to at most the declared total, which is within MAX_BYTES |
| ArchivePaths.Register | packages/ts-release/src/internal/Tar.ts:3-25 | Registers exactly the safe portable paths not yet used up to letter case, within the entry bound |
| Tar.ReadTar | packages/ts-release/src/internal/Tar.ts:27-122 | The loop over headers computes the block-by-block definition, refusal by refusal |
| Tar.ReadPaxPath | packages/ts-release/src/internal/Tar.ts:56-80 | The loop over records computes the record-by-record definition |
| Tar.ScanLayout | packages/ts-release/src/internal/Tar.ts:81-120 | Of every accepted archive: bodies are disjoint in-range slices in order, paths are safe, and no two are alike up to letter case |
| TarRoundTrip.ReadExactly | packages/ts-release/src/internal/Tar.ts:27-122 | The reader accepts exactly the ustar and pax serialisations, within the limits, of lists of valid, case-distinct entries, and reads each as its list in order. A serialisation may use: the name field or prefix and name; directories with a slash at the end or without; either file type flag; any spelling of the octal fields; pax records in any order around the path; extensions without a path; long names; any bytes in what is not read. Every header carries its own checksum |
| TarRoundTrip.SerialisationIsUnambiguous | packages/ts-release/src/internal/Tar.ts:27-122 | One archive is a serialisation of at most one list of valid entries |
| TarRoundTrip.UstarForm | packages/ts-release/src/internal/Tar.ts:104-119 | A path that the name field holds, or that prefix and name hold when cut at a slash, has a serialisation without an extension |
| TarRoundTrip.SerialisationExists | packages/ts-release/src/internal/Tar.ts:50-79 | Every list of valid entries with sizes of up to eleven octal digits has a serialisation: a path that the name fields cannot hold goes into a pax record that counts its own length |
| GitHubEvidence.PlannedIsRemote | packages/github/src/Evidence.ts:196-234 | When the enumeration is classified Satisfied, every asset operation the plan has for the draft has a remote asset with the recorded identity, the planned name and length and a known digest equal to the planned one |
| GitHubEvidence.RemoteIsPlanned | packages/github/src/Evidence.ts:204-209 | And every remote asset is one of those |
| GitHubEvidence.CorrespondenceIsOneToOne | packages/github/src/Evidence.ts:204-231 | And the correspondence is one-to-one |
| GitHubEvidence.SatisfiedPublication | packages/github/src/Evidence.ts:149-194 | A publication observed as Satisfied is public, at the draft's commit, equal to the recorded draft apart from exposure, with a Satisfied enumeration |
| GitHubStatus.AssetMeans | packages/github/src/Evidence.ts:149-179 | An observed asset is Satisfied exactly when it is the planned file at the bound commit and the digests known of it are the planned one; Inconclusive when it is and no digest is known; in Conflict when it is not or a known digest differs |
| GitHubStatus.TagOrDraftMeans | packages/github/src/Evidence.ts:149-194 | A tag, reference or draft is Satisfied exactly when every intended property is the observed one, a draft also needing its commit to be known, and otherwise in Conflict |
| GitHubStatus.EnumerationMeans | packages/github/src/Evidence.ts:196-234 | The enumeration is Satisfied exactly when it is complete with every digest known, Inconclusive when complete with a digest unknown, in Conflict when it is not complete |
| GitHubStatus.PublicationMeans | packages/github/src/Evidence.ts:149-194 | What every status of an observed publication means: it is Satisfied exactly when the release is the recorded draft, public, at the bound commit, with a complete, digest-known enumeration |
| GitHubStatus.WithoutPresence | packages/github/src/Evidence.ts:149-162 | A look that found nothing is Pending with receipts and Absent without; one that could not look is Inconclusive |
| GitHubEvidence.ClassifyAssets | packages/github/src/Evidence.ts:196-234 | The loop gives the first refusal or conflict, or else whether some digest is unknown |
| GitHubEvidence.SelectedSpeaksForAll | packages/github/src/Binding.ts:34-81 | All records of a parent name one parent; a later one cannot erase recorded exposure or a known digest |
| GitHubStatus.SelectedMeans | packages/github/src/Binding.ts:34-81 | A parent is selected exactly when its records agree in identity and digest, and it is the last public one, else the last with a known digest, else the last |
| GitHubStatus.CandidatesMean | packages/github/src/Binding.ts:34-57 | The records of a parent are exactly its decoded receipts and Satisfied observations |
| GitHubEvidence.SelectParent | packages/github/src/Binding.ts:34-81 | The two gathering loops and the choice compute the record that speaks for the parent |
| GitHubEvidence.ScopeHoldsSelected | packages/github/src/Binding.ts:96-128 | What a bound scope holds under a parent's identity is the record selected for that parent |
| GitHubStatus.ScopeMeans | packages/github/src/Binding.ts:96-128 | A bound scope is about its operation's own or inherited commit and holds exactly the records of the parents its intent needs |
| GitHubGraph.ValidatePlan | packages/github/src/Graph.ts:69-125 | Accepts exactly the graphs whose native relationships hold and in which no native place is written twice |
| GitHubGraph.GraphExactly | packages/github/src/Graph.ts:69-125 | A graph is accepted exactly when every operation decodes and builds on declared parents of the right kind, tag and repository, a publication on every asset of its draft, and no two write to one place |
| GitHubGraph.PublishNamesEveryAsset | packages/github/src/Graph.ts:100-113 | A publication names each asset operation the plan has for its draft, once, and no other |
| GitHubGraph.AssetNamesDistinct | packages/github/src/Graph.ts:114-123 | Two assets of one draft have different public names |

## Left out

Assumptions that the theorems rest on, each a parameter or a hypothesis:

- The journal store is append-only, compares the revision, and answers AlreadyRecorded only for the identical event; which appends land, and when, is arbitrary.
- Fresh identities: `uniqueId` returns an identity that no event was ever created under.
- Rejection proofs are sound: a rejection with an admitted proof is returned only for a request the remote refused.
- Provider callbacks, codecs, transports and the supplied decision machine are pure functions that may refuse; asynchronous callbacks, freezing and defensive copies are not modelled.
- A receipt classifier that throws is not modelled apart from a receipt that does not decode; in the code both take the same branch.
- The equality of two events, requests or bases by canonical text is modelled as equality; `JsonRoundTrip.CanonicalInjective` is the reason.
- Hosts are given the plans they know by identity; `PlanIdentityLaws.PlanIdDeterminesPlan` is the reason one identity names one plan, under an injective digest.
- Times are integers with the code's range checks; digests, CRC, inflate, NFC, lower-casing, UTF-8 decoding, URL comparison and regular expressions of single fields are parameters, with the laws used stated as hypotheses.

Contracts that are narrower than the code:

- Protocol.ReachableStep: the time between reading a snapshot and deciding on it is one step; other runners act before and after it, and the append is still compared against the revision that was read.
- Release.ReleaseRun.Others: other runners, the store and the remote are one function of time and state that must be some finite run of the protocol; it is arbitrary otherwise.
- Release.ReleaseRun.PrepareRequest: verifying request bytes, binding the transport and preparing it are one predicate on the request facts.
- Release.ReleaseRun.RunRelease: the option checks on types of values are left to the types of the model.
- Preparation.RunPreparation: admitting the preparation collection and classifying the finished native work are parameters; observing through a replaced provider is the recording of that one observation.
- NativeJson.DecodeJson: the value is the one the accepted syntax denotes, members in written order; the reordering of integer-like keys by JavaScript objects is not modelled. Unescaped characters are UTF-16 units, so a text given as a string may spell half a surrogate pair plainly and half by escape, as the code allows.
- JsonRoundTrip.DecodeOfCanonical: values are plain data; hidden properties, accessors, cycles and foreign prototypes, which canonical JSON refuses in JavaScript, have no counterpart.
- TreeLayout.CheckLinks: the upstream manifest laws and the portable-name check of the same function are not modelled.
- Multipart.BuildBody: reading the metadata out of the archive is a parameter that returns the metadata and the form's fields or refuses.
- Zip.ReadZip: records are read with total field functions; every field the code reads is in range where it reads it.
- TarRoundTrip.ReadExactly: fatal decoding is a parameter with the law of TextDecoder as a hypothesis: it reads exactly the encoded texts, behind one byte-order mark or none.
- TarRoundTrip.SerialisationExists: covers bodies below 8 GiB, the largest size of eleven octal digits; larger ones are far beyond any bound a caller sets.
- GitHubGraph.ValidatePlan: decoding an operation's intent is a parameter.
- GitHubEvidence.SelectParent: a receipt or observation decodes to its scope and facts through a parameter.

Not modelled:

- Concrete stores, HTTP and Git transports, credentials, Apple tools, signing, command line, templates and scripts: input and output, process control or foreign libraries.
- Preflight: it appends nothing and decides nothing.
- Wire formats of the hosting service and URL parsing: field checks without further structure.
- The npm, OpenAI and catalog providers and the bundle codecs: mostly field validation.
- Restoring a tree on a file system and reading content owners: input and output.
- The finite research prototypes, whose laws differ from production.
