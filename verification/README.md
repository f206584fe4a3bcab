# Verified model of the home assistant agent and its IoT control plane

This project models, in Dafny, the stateful protocols and the decision logic of two services: the
IoT control plane (`modules/iot-mcp`), which executes device commands behind an idempotent ledger
and a confirmation gate, and the home assistant agent (`src/home_assist_agent`), which resolves what
a person means, executes it, and learns the words used.

`dafny verify dfyconfig.toml` checks everything.

## What is modelled

* **Control and confirmation.** `Bindings`, `Policy` and `Ledger` are the tables with their unique
  keys, conditional updates and digests. `ControlProtocol` runs any number of `submit` and `decide`
  calls over them as processes with a program counter: each repository session is one atomic step,
  and binding syncs, the clock, crashes and the answers of devices and providers interleave freely.
  `ControlSafety` proves the invariant, `ControlHistory` says where in the run each value was read
  and who left no trace, `ControlTheorems` states what every run keeps, and `ControlScript` in what
  order one process acts whatever the others do. `ControlOutcomes` and `ControlCalls` go the other
  way: from any moment of any run, they say what a won approval and a whole call come to.
* **Term revisions.** `TermLog` is the append-only table and its queries, `TermMachine` the
  interleaved calls that read and then append, `TermTheorems` what every run keeps, `TermStore` the
  store and the promotion worker as one process sees them, `TermCalls` what one call appends.
* **Replay and ordering stores.** `Nonces`, `Context`, `EventReceipts`, `MessageReceipts`: each a
  class over its table, and the property over whole runs that the table exists for.
* **Target resolution.** `Catalog`, `CatalogMerge` and `CatalogFields` (the versioned catalog),
  `Candidates`, `CandidateBuilder`, `CandidateTheorems` and `CandidateMeaning` (merging evidence,
  ranking, cutting, and what it all has to do with what was said), `Verifier`, `Clarification`,
  `Resolution` (two rounds), `Executor`, and `Effects` (what its calls do to a house).
* **Structure.** `Tsl`, `TslService` and `TslMeaning` (the recursive type and value validator, and
  what it means on a description's own keys), `Assembly` and
  `AssemblyTheorems` (one device from several entities), `Brightness`.

## Assumptions

* SHA-256 over canonical JSON is injective: a digest is the constructor of its own payload. Random
  ids are inputs; where a fresh id would collide the model takes the branch the database takes.
* Times are integers, except the webhook clock, which is real. Other floating-point numbers are reals.
* A repository method's session is one atomic transaction. `create_operation` is two.
* Unicode normalization, the similarity ratio, case folding, `str` and `float` of a string are
  unspecified functions passed as parameters.
* JSON values are compared structurally.
* `verify` of a webhook is one step and its clock never goes back.
* In `Effects`, HassTurnOn, HassTurnOff and HassLightSet act on the entity their "name" argument
  names, as the executor takes them to; a failed call is not followed any further.

## Model

| member | source | states |
|---|---|---|
| Bindings.BindingTable.GetPrimary | modules/iot-mcp/backend/src/iot_mcp/adapters/outbound/persistence/repositories.py:304-319 | returns the row of a device and provider, the device's own provider when none is given, and none exactly when there is none; with the unique key there is never a second |
| Bindings.BindingTable.UpsertBinding | modules/iot-mcp/backend/src/iot_mcp/adapters/outbound/persistence/repositories.py:245-290 | one row is written, the one of the device and provider, or else the one with the reference, or else a new one, with what was given and the greater of the given revision and the row's own, which a change of the row raises; an integrity error is reported exactly when a key would break or the device is not on record, and then nothing changes; both unique keys survive |
| Bindings.RefusedExactlyWhen | modules/iot-mcp/backend/src/iot_mcp/adapters/outbound/persistence/repositories.py:245-290 | for all tables and upserts: the integrity error happens exactly when the device is not on record, a new row meets a taken primary key, or a row found by its owner takes over a reference another row holds |
| Bindings.UpsertVersions | modules/iot-mcp/backend/src/iot_mcp/adapters/outbound/persistence/repositories.py:268-289 | an upsert keeps both unique keys, never lowers a revision, and strictly raises it whenever device, provider, type, reference or route data change |
| Bindings.HistoryVersions | modules/iot-mcp/backend/src/iot_mcp/adapters/outbound/persistence/repositories.py:245-290 | the same between any two moments of any sequence of upserts, and no row ever disappears |
| Bindings.SameRevisionSameRoute | modules/iot-mcp/backend/src/iot_mcp/adapters/outbound/persistence/repositories.py:245-290 | no ABA: equal revisions at two moments mean the same route at every moment between |
| Policy.InitiatorUnambiguous | modules/iot-mcp/backend/src/iot_mcp/application/control_service.py:116-118 | `source:actor` determines source and actor, whatever characters the actor contains |
| Policy.MatchersAgree | modules/iot-mcp/backend/src/iot_mcp/adapters/outbound/persistence/repositories.py:52-68 | for every two operations `submit` can propose, the fingerprint test and the field-by-field test agree, and both hold exactly when device, action, target and principal coincide |
| Policy.ResolveRisk | modules/iot-mcp/backend/src/iot_mcp/application/control_service.py:379-389 | the loop returns the greatest of the default and the declared risks of the features the action sets or calls: high exactly when one of them is, low exactly when all are |
| Ledger.OperationTable.GetByKey | modules/iot-mcp/backend/src/iot_mcp/adapters/outbound/persistence/repositories.py:428-433 | finds the row with the key, if any |
| Ledger.OperationTable.Insert | modules/iot-mcp/backend/src/iot_mcp/adapters/outbound/persistence/repositories.py:439-455 | insert or resolve against the row that holds the key, or fail for a taken id or a device that is not on record; keys stay unique; an unsuccessful insert changes nothing |
| Ledger.OperationTable.CreateOperation | modules/iot-mcp/backend/src/iot_mcp/adapters/outbound/persistence/repositories.py:435-473 | across its two sessions, whatever others insert in between: a row is created exactly when neither key is taken and the device is on record; a reused key returns the original for a matching request and a conflict for any other, and then no row changes |
| Ledger.OperationTable.UpdateOperation | modules/iot-mcp/backend/src/iot_mcp/adapters/outbound/persistence/repositories.py:489-511 | only status and result of one row change, never the request; an unknown id is reported |
| Ledger.ConfirmationTable.CreateRequest | modules/iot-mcp/backend/src/iot_mcp/adapters/outbound/persistence/repositories.py:518-522 | inserts a pending row exactly when neither the id nor the operation is taken and the operation is on record |
| Ledger.ConfirmationTable.DecidePending | modules/iot-mcp/backend/src/iot_mcp/adapters/outbound/persistence/repositories.py:571-614 | wins exactly from pending when the expected values match, cannot win twice, and a loser changes nothing |
| ControlSafety.ApplyKeeps | modules/iot-mcp/backend/src/iot_mcp/application/control_service.py:80-335 | every step of every coroutine, sync, clock tick and crash keeps the protocol invariant and takes back no request, question, decision or history |
| ControlSafety.Reachable | modules/iot-mcp/backend/src/iot_mcp/application/control_service.py:80-335 | the invariant holds in every state of every interleaving |
| ControlSafety.DecisionIsNew | modules/iot-mcp/backend/src/iot_mcp/application/confirmation_service.py:114-128 | a confirmation that is still pending has never been decided in the run, so the compare-and-set decides it for the first time |
| ControlSafety.VerdictFacts | modules/iot-mcp/backend/src/iot_mcp/application/control_service.py:179-208 | after a won approval the re-read confirmation is the approved one of the operation with its target, so the check of `execute_approved` writes the approval and goes on to execute; that a won approval gets there is stated over runs by `ControlScript.ApprovalIsWrittenNext` and `ControlOutcomes.ApprovalIsCarriedOut` |
| ControlTheorems.AtMostOneCommand | modules/iot-mcp/backend/src/iot_mcp/application/control_service.py:130-177 | over every interleaving of submits, decisions, syncs and crashes, at most one provider mutation (or no-op finding) per operation and per idempotency key |
| ControlTheorems.CommandWasApproved | modules/iot-mcp/backend/src/iot_mcp/application/confirmation_service.py:62-129 | a mutation for a high-risk autonomous operation comes after an approving ballot of the authorized actor, whose process read the run's clock before the expiry while the confirmation was pending; reference, action and inputs sent are those of the digest the confirmation carries |
| ControlTheorems.DecisionsAreVerdicts | modules/iot-mcp/backend/src/iot_mcp/application/confirmation_service.py:43-147 | each decision taken across the four awaits of `decide` equals the verdict the procedure would reach in one piece on the ballot, the request, and the clock and binding table the run had when the process read them, the confirmation pending throughout |
| ControlTheorems.RouteStoodStill | modules/iot-mcp/backend/src/iot_mcp/application/confirmation_service.py:100-113 | the bound row kept its route at every version of the table from the one that was current when the submission read it to the one that was current when the approving process did |
| ControlTheorems.LateRefusalsUnreachable | modules/iot-mcp/backend/src/iot_mcp/application/control_service.py:187-219 | no operation is ever rejected as `approval_binding_invalid`, nor as `bound_target_missing` unless its confirmation was rejected |
| ControlTheorems.OnlyCreatorAndWinnerWrite | modules/iot-mcp/backend/src/iot_mcp/application/confirmation_service.py:114-147 | only the coroutine that created an operation and the one that won its confirmation ever write its row |
| ControlTheorems.LoserDidNothing | modules/iot-mcp/backend/src/iot_mcp/application/confirmation_service.py:114-147 | a decider that loses the compare-and-set, whichever decision it was attempting, has created, decided, written and sent nothing, and is over |
| ControlTheorems.WritesAreLogged | modules/iot-mcp/backend/src/iot_mcp/adapters/outbound/persistence/repositories.py:489-614 | no operation row changes without its write on the trace, and no confirmation without its decision, so the trace misses no write |
| ControlTheorems.ReplaysAreAnswered | modules/iot-mcp/backend/src/iot_mcp/application/control_service.py:116-146 | across the two interruptible sessions of `create_operation`: a submission gets its own new row, or the row with its key as a replay exactly when the requests match (between submissions of the run: when both ask for the same) and as a conflict otherwise, and then it did nothing else |
| ControlTheorems.EveryWinWasTaken | modules/iot-mcp/backend/src/iot_mcp/application/confirmation_service.py:62-128 | the clock reading and table version a decision records are those of moments of the run, in order, at which the process read them and the confirmation was pending; the step that takes the decision is the one that puts the win on record |
| ControlTheorems.EveryOriginFoundItsRow | modules/iot-mcp/backend/src/iot_mcp/application/control_service.py:104-116 | the table version an operation records was current when its submission read the binding |
| ControlHistory.HistoryHolds | modules/iot-mcp/backend/src/iot_mcp/application/control_service.py:80-335 | every clock reading and table version that a process carries across an await, or that is on record, was read by it at an earlier moment of the run |
| ControlHistory.QuietHolds | modules/iot-mcp/backend/src/iot_mcp/application/control_service.py:80-335 | a process that has not reached its first write, or ended without one, has left nothing in the records |
| ControlTheorems.DecidedOnce | modules/iot-mcp/backend/src/iot_mcp/adapters/outbound/persistence/repositories.py:571-614 | over any run a confirmation leaves pending at most once and then never changes; its question and its operation's request never change at all |
| ControlTheorems.RowsShowWrites | modules/iot-mcp/backend/src/iot_mcp/adapters/outbound/persistence/repositories.py:489-511 | in every state of every run each row has the status of the last write the trace has of it, and that write's result if it has one; a row of the run not written yet is as it was stored, requested and without result |
| ControlScript.ScriptIsFollowed | modules/iot-mcp/backend/src/iot_mcp/application/control_service.py:80-335 | over every interleaving, the next event of a process is one its coroutine prescribes after its last: a won approval is written as approved; an expiry or a refusal writes its status and the code of the first check that failed; a created row is asked about exactly when an autonomous principal meets high risk, and otherwise begins to execute; what is sent is the requested action to the requested place, or every wanted value was read back, or could not be read; and the status recorded for an answer, with its payload or code, is the one the answer amounts to |
| ControlScript.ScriptOpens | modules/iot-mcp/backend/src/iot_mcp/application/control_service.py:80-146 | the first event of a process is the answer to its submission, its decision, or the loss of one |
| ControlScript.ApprovalIsWrittenNext | modules/iot-mcp/backend/src/iot_mcp/application/control_service.py:203-205 | in every run the winner's next event after a won approval is the write of the operation as approved |
| ControlOutcomes.WinnerGoesOn | modules/iot-mcp/backend/src/iot_mcp/application/confirmation_service.py:114-129 | the step that takes an approval leaves its process alive with the approval as its last event |
| ControlOutcomes.ApprovalIsCarriedOut | modules/iot-mcp/backend/src/iot_mcp/application/control_service.py:179-320 | from any moment of any run at which a process has won an approval, done nothing since and not been stopped, its own steps alone end it by way of: the write as approved; a failure for an inactive device or a provider not registered as it was; otherwise the write as executing, and then, for properties, a no-op exactly when every wanted key read back its wanted value, and in every other case the requested action sent to the request's provider and reference, followed by the status the answer calls for |
| ControlCalls.DecideAlone | modules/iot-mcp/backend/src/iot_mcp/application/confirmation_service.py:43-147 | a call of `decide`, at any moment of any run and whatever the tables hold, ends by its own steps with exactly these events: none for an unknown confirmation, another actor or another word; the loss when the confirmation is decided; a refusal with the code of the first of hash, expiry, ballot, target and binding that fails; and else the approval carried out |
| ControlCalls.SubmitAlone | modules/iot-mcp/backend/src/iot_mcp/application/control_service.py:80-177 | a call of `submit` under an unused key, for an active device with a primary binding, ends by its own steps with the row stored, bound to that binding field by field, and then either a pending confirmation of exactly that action, to be answered by the configured actor until the term from now, or the execution |
| ControlCalls.SubmitAgain | modules/iot-mcp/backend/src/iot_mcp/application/control_service.py:130-146 | a call under a key that a row has changes no row and answers with that row, as a replay exactly when fingerprint or all identity fields agree, and as a conflict otherwise |
| ControlCalls.SubmitTurnedAway | modules/iot-mcp/backend/src/iot_mcp/application/control_service.py:92-107 | a call without an active device, without a primary binding or with an invalid action ends with the database as it was |
| TermLog.SuccessorFitsOnlyLatest | src/home_assist_agent/terms/store.py:450-487 | optimistic concurrency: revision+1 is accepted exactly when the row it was computed from is still the latest of its mapping |
| TermLog.JoinIsMaintainedMap | src/home_assist_agent/terms/store.py:753-774 | the join with MAX(revision) returns exactly the rows an incrementally kept map holds |
| TermLog.OneLatest | src/home_assist_agent/terms/store.py:776-791 | a mapping has at most one current row |
| TermMachine.ApplyKeeps | src/home_assist_agent/terms/store.py:48-230 | each read, insert or failure of any call keeps every mapping's revisions 1..n and each row lawful |
| TermMachine.LogGrows | src/home_assist_agent/terms/store.py:697-743 | rows are only ever appended |
| TermTheorems.NoLostUpdate | src/home_assist_agent/terms/store.py:441-487 | in every reachable log revision k+1 was computed from revision k while k was the latest, and numbers are 1..n without gaps |
| TermTheorems.Lifecycle | src/home_assist_agent/terms/store.py:171-230 | over every interleaving: key and targets fixed, rejected or superseded never active again, approved never provisional again, the promotion date set once from creation and never moved |
| TermTheorems.CorrectableOrDue | src/home_assist_agent/terms/store.py:822-885 | at any instant a provisional term is exactly one of correctable by its owner, and by nobody else, or due |
| TermTheorems.QueriesAgreeWithMap | src/home_assist_agent/terms/store.py:745-820 | the current-row queries agree with the maintained map in every reachable state |
| TermTheorems.AtMostOneActive | src/home_assist_agent/terms/store.py:48-169 | as long as creates for a (home, scope, person, term) do not overlap it has at most one active mapping, whatever overlaps for other keys |
| TermTheorems.AtMostOneActiveEach | src/home_assist_agent/terms/store.py:48-169 | without any overlap every key has at most one active mapping |
| TermTheorems.RowKeepsSingleExactlyWhen | src/home_assist_agent/terms/store.py:697-743 | any appended row leaves a single key single exactly when it does not start a mapping for it beside an active one |
| TermTheorems.SingleThroughoutExactlyWhen | src/home_assist_agent/terms/store.py:62-105 | in any run, overlaps included, a key is single throughout exactly when no insert started a mapping for it beside an active one |
| TermTheorems.NewMappingIsSafeExactlyWhen | src/home_assist_agent/terms/store.py:62-105 | inserting a new mapping leaves its key single exactly when nothing became active for the key since the read, and other keys as they were |
| TermTheorems.OverlappingCreatesBothStay | src/home_assist_agent/terms/store.py:62-82 | any acceptable create, issued twice with both reads before both inserts, ends with two active mappings for its key |
| TermStore.Store.LoadCurrent | src/home_assist_agent/terms/store.py:776-791 | returns the current row of the mapping, or none |
| TermStore.Store.DueProvisionals | src/home_assist_agent/terms/store.py:863-885 | what it returns is exactly the latest rows that are provisional with a promotion date not after now, each once, earlier dates first and ids in order among equals |
| TermStore.Store.Approve | src/home_assist_agent/terms/store.py:171-189 | promotes a provisional mapping, repeats an approved one, refuses the others; the appended row is the current one with the next number, approved, no promotion date and the time of the change; what is appended under each failure |
| TermStore.Store.RunOnce | src/home_assist_agent/terms/worker.py:22-96 | the pass tries, in order, only mappings whose latest row is provisional with a promotion date not after now, until one of its own records raises; each it reports as approved has the approved row as its latest; no mapping that was not due moves, in particular none its owner may still take back; still due is exactly what was not tried or could not be written; and when all that was due is written, every mapping left provisional is one its owner may still take back |
| TermStore.UninterruptedPass | src/home_assist_agent/terms/worker.py:22-96 | a pass in which no record raises looks at everything due and leaves due exactly what could not be written; a failure-free one leaves no provisional row whose date has come |
| TermCalls.CallsDo | src/home_assist_agent/terms/store.py:48-230 | at any moment of any run, a call that reads and inserts without interruption appends exactly the row it should, field by field, or none: a first row under the call's key, a further use of a mapping exactly when it stands for the same entities, a change of status exactly from the statuses that allow it |
| Nonces.Channel.Consume | modules/iot-mcp/backend/src/iot_mcp/adapters/outbound/persistence/repositories.py:621-656 | success exactly when no row holds the nonce that has not expired; then the nonce has its new row and of the others exactly the unexpired are left, and otherwise nothing changes |
| Nonces.Channel.Verify | modules/iot-mcp/backend/src/iot_mcp/adapters/outbound/webhook/channel.py:51-91 | accepted exactly for three nonempty headers, a stamp within the tolerance either way, a good signature and a nonce without an unexpired row; which code is raised exactly when; what the table is afterwards, and that a refusal leaves it alone |
| Nonces.DecidesLikeHistory | modules/iot-mcp/backend/src/iot_mcp/adapters/outbound/webhook/channel.py:67-91 | with a clock that never goes back the purging table decides like the unbounded history: accepted exactly when no accepted delivery with the nonce still counts |
| Nonces.AcceptedAtMostOnce | modules/iot-mcp/backend/src/iot_mcp/adapters/outbound/webhook/channel.py:67-91 | a (timestamp, nonce) pair is accepted at most once ever |
| Nonces.AcceptancePurges | modules/iot-mcp/backend/src/iot_mcp/adapters/outbound/persistence/repositories.py:648-654 | right after an acceptance no expired row is left |
| Context.ContextStore.Upsert | src/home_assist_agent/context/store.py:57-121 | the row afterwards is the event's unless the row before is later, and is what is returned; no other row changes |
| Context.RowPrevails | src/home_assist_agent/context/store.py:73-98 | after any deliveries a row holds the event with the greatest time, the last arrival among equals |
| Context.OrderDoesNotMatter | src/home_assist_agent/context/store.py:57-121 | all orders and repetitions of the same events with distinct times give the same table |
| EventReceipts.EventStore.Claim | src/home_assist_agent/events/store.py:69-86 | claims exactly once until released |
| EventReceipts.EventStore.Release | src/home_assist_agent/events/store.py:88-96 | forgets that claim and no other |
| EventReceipts.StartedAtMostOnce | src/home_assist_agent/events/service.py:87-205 | over all interleavings, failures and releases the command starts at most once per (source, event id) |
| EventReceipts.HandleAlone | src/home_assist_agent/events/service.py:87-205 | a call of `handle` that nothing interrupts, at any moment: a claimed event changes nothing; otherwise the command starts exactly when the rules match, and the claim stays unless something raised before any command started |
| MessageReceipts.ReceiptStore.ClaimMessage | src/home_assist_agent/conversations/store.py:268-305 | a new message is inserted as processing, a known one returned unchanged |
| MessageReceipts.ReceiptStore.CompleteMessage | src/home_assist_agent/conversations/store.py:307-334 | moves processing to completed with the response and nothing else |
| MessageReceipts.ReceiptStore.FailMessage | src/home_assist_agent/conversations/store.py:351-370 | moves processing to failed and nothing else |
| MessageReceipts.SettledOnce | src/home_assist_agent/conversations/store.py:307-370 | a receipt is settled at most once in any run |
| MessageReceipts.AnswersAreReturns | src/home_assist_agent/channels/message.py:117-183 | every answer carries what the orchestrator returned for the message, of which there is one, unless its receipt was completed before the run |
| MessageReceipts.StartedOnceAnsweredAlike | src/home_assist_agent/channels/message.py:61-183 | the orchestrator starts at most once per message id, and every answer ever given for a message, first or replayed, is the same response |
| MessageReceipts.ExecuteAlone | src/home_assist_agent/channels/message.py:61-183 | a call of `execute` for a new message that nothing interrupts: what is started, stored and answered under each failure of the queue, the orchestrator and the commit |
| MessageReceipts.RepeatAlone | src/home_assist_agent/channels/message.py:61-78 | a call for a known message changes no receipt and answers exactly a completed one, with its response |
| CatalogMerge.Merge | src/home_assist_agent/ha/catalog.py:344-422 | fails exactly when some id or the home breaks the entity's own validation; otherwise one entity for each id of the states and the registry, in order, each made of the last record of its id |
| CatalogMerge.MergesExactlyWhen | src/home_assist_agent/ha/catalog.py:344-422 | a catalog results exactly when every state and registry record with an entity id has one of at least three characters and a nonempty domain, in a named home |
| CatalogMerge.EntitiesAreSound | src/home_assist_agent/resolution/models.py:39-63 | every merged entity passes its validation: home, id length, and the id's domain |
| CatalogMerge.MergeIsValid | src/home_assist_agent/ha/catalog.py:344-422 | a merged catalog passes the snapshot's validation and covers exactly the ids named by a state or the registry |
| CatalogMerge.StatesLeaveVersion | src/home_assist_agent/ha/catalog.py:462-493 | states that change while attributes stay leave the version unchanged |
| CatalogMerge.MergeIsOfSets | src/home_assist_agent/ha/catalog.py:344-422 | the order in which records are listed does not matter |
| CatalogFields.FieldsComeFrom | src/home_assist_agent/ha/catalog.py:344-460 | every field of every merged entity from the records: the last state, registry entry, device and area listed under its ids, which key supplies each text and which one stands in when it says nothing, what the entity can do, and when it is available and disabled |
| Catalog.SameVersionSameDevices | src/home_assist_agent/ha/catalog.py:462-493 | snapshots of one version describe the same entities, equal in every field but state and availability |
| CandidateBuilder.AddCollects | src/home_assist_agent/resolution/candidates.py:233-252 | adding one piece of evidence to the dictionary of a set gives the dictionary of the larger set, whatever came before |
| CandidateBuilder.Groups | src/home_assist_agent/resolution/candidates.py:134-137 | the area dictionary: each named area with its eligible entities in catalog order |
| CandidateBuilder.Collect | src/home_assist_agent/resolution/candidates.py:79-146 | a target is in the dictionary exactly when it can be proposed and a visible term, an alias, a name or an area says the expression, and its sources, words and notes are all of those that do and no others |
| CandidateBuilder.Complete | src/home_assist_agent/resolution/candidates.py:148-178 | context is added to every entry, and only an empty dictionary is filled with semantic fallback |
| CandidateBuilder.Build | src/home_assist_agent/resolution/candidates.py:59-195 | `build` returns the first candidates, up to the limit, of everything collected in strict order, nothing for a foreign home or an empty expression; every candidate can be controlled and is explained by what was said |
| CandidateMeaning.CandidatesMean | src/home_assist_agent/resolution/candidates.py:59-231 | for every candidate, on the fields of terms and entities: a personal provisional, personal approved or home term source is there exactly when a term of that home, scope, person and status spelled like the expression stands for exactly its target; alias or name exactly when its target is one controllable entity so called; area exactly when the controllable entities of an area so named are its target; context exactly when it was mentioned; semantic fallback only when none of these names any proposable target, and then for one controllable entity, a lamp if lamps are spoken of, with its best similarity; the score is the sum of the weights and the similarity |
| CandidateMeaning.NothingIsMissing | src/home_assist_agent/resolution/candidates.py:79-195 | every target so named, or every entity that may stand in when none is, is proposed, unless the list is full of candidates that score more, or as much with an earlier target |
| CandidateTheorems.BuildIsOfSets | src/home_assist_agent/resolution/candidates.py:59-195 | permuting or repeating terms, or permuting the catalog, changes no candidate but for the catalog version it carries; in particular `build` is a function |
| CandidateTheorems.CandidatesAreSound | src/home_assist_agent/resolution/models.py:134-144 | every candidate passes the model's validation: a nonempty sorted target of at most 20 eligible entities, some source, its score, the catalog's version and home; fallback is in all candidates or in none |
| CandidateTheorems.CandidatesInOrder | src/home_assist_agent/resolution/candidates.py:180-195 | ids and targets are distinct and candidates come by score descending, then target |
| CandidateTheorems.CandidatesAreNumbered | src/home_assist_agent/resolution/candidates.py:187-195 | ids are cand_01, cand_02, ... within the limit |
| CandidateTheorems.BestAreKept | src/home_assist_agent/resolution/candidates.py:180-186 | whatever was collected but cut off ranks below every candidate kept, and then the limit is reached |
| Verifier.Choose | src/home_assist_agent/resolution/verifier.py:112-155 | the checks before the catalog is read, in order, with the duplicate test on a dictionary |
| Verifier.Verify | src/home_assist_agent/resolution/verifier.py:102-212 | the verdict with the first failing check's code, or the verified target |
| Verifier.VerifiedMeansFit | src/home_assist_agent/resolution/verifier.py:102-212 | for arbitrary decisions and candidates: success means the chosen candidate, unchanged version, and every target present, at home, enabled, available and supporting the action |
| Verifier.VerdictSays | src/home_assist_agent/resolution/verifier.py:102-212 | for arbitrary decisions, candidates and catalogs: each error code names the first check that fails, on the decision, the candidates, the catalog, and the first target entity that is missing, elsewhere, disabled, unavailable or unable, in this order |
| Verifier.ProposedVerdict | src/home_assist_agent/resolution/verifier.py:157-212 | a candidate eligible when built and chosen with enough confidence fails only for a foreign home, a changed catalog or an unavailable target, and which of these it was |
| Verifier.BuiltVerdict | src/home_assist_agent/resolution/verifier.py:102-212 | the same for every candidate `build` returns: with the same version, verified exactly when all its targets are available |
| Clarification.ChoiceIds | src/home_assist_agent/commands/service.py:694-709 | the choice loop keeps the first three distinct known ids of the preferred list |
| Clarification.ChoicesAre | src/home_assist_agent/commands/service.py:694-709 | choices are distinct known candidates, three where there are three, a known selection first |
| Clarification.AllCandidate | src/home_assist_agent/commands/service.py:926-1034 | "all" is offered exactly when the answer asks for it, there are two or more choices, all known, of one version and home, and their union has 1 to 20 entities; it then stands for exactly that union |
| Clarification.WordsFitTheirAction | src/home_assist_agent/commands/service.py:926-961 | an answer that asks for all of one action never names another |
| Clarification.AllAllowedExactlyWhen | src/home_assist_agent/commands/service.py:962-997 | for choices among built candidates only the answer, the number of choices and the size of the union matter |
| Clarification.AllIsNew | src/home_assist_agent/commands/service.py:998-999 | `cand_99` is never the id of a built candidate |
| Clarification.AllVerdict | src/home_assist_agent/commands/service.py:837-885 | the "all" candidate is verified exactly when the catalog is unchanged and everything in the union of the choices is available |
| Resolution.Resolve | src/home_assist_agent/commands/service.py:397-528 | the two-round loop always returns, and there is a second round only when the catalog changed under the first |
| Resolution.ExecutedTargetIsSound | src/home_assist_agent/commands/service.py:397-528 | whatever the language model decides, an executed target was eligible in the catalog its candidates came from and is fit in the catalog read afterwards |
| Resolution.SureDecisionExecutes | src/home_assist_agent/commands/service.py:456-512 | with a sure decision on a known candidate and an unchanged catalog the round executes exactly that candidate, or asks back because part of it is unavailable |
| Resolution.AgainExactlyWhen | src/home_assist_agent/commands/service.py:456-512 | a round asks for another exactly when a sure decision on a known candidate meets a catalog of the home with another version; the same finding in the last round is put to the user |
| Resolution.RoundWithoutChoice | src/home_assist_agent/commands/service.py:397-456 | no candidates ask back with none; a missing catalog, term list or decision is an error |
| Resolution.OtherwiseAsksBack | src/home_assist_agent/commands/service.py:456-528 | what is not executed is put to the user with its candidates, and is an error exactly when the catalog cannot be read for a sound choice |
| Executor.CleanRemovesAll | src/home_assist_agent/devices/executor.py:227-253 | cleaning leaves no target field at any depth |
| Executor.CleanKeeps | src/home_assist_agent/devices/executor.py:227-253 | cleaning changes nothing exactly when there is nothing to remove |
| Executor.CleanKeys | src/home_assist_agent/devices/executor.py:227-253 | at the top exactly the keys that fold to area, domain, entity_id, floor, name, target or target_expression go, and simple values stay as they are |
| Executor.RunCalls | src/home_assist_agent/devices/executor.py:130-169 | the loop stops at the first failure and records what was completed, failed and skipped, each call with the tool name the server returns |
| Executor.ExecuteVerified | src/home_assist_agent/devices/executor.py:48-169 | refused for another action, or for a plan whose tool is not the action's by name or behind a prefix, in this order; otherwise the entities are called in order up to the first failure, each with a listed tool that is HassTurnOn, HassTurnOff or HassLightSet as the action asks, its own name, the cleaned plan and the parameters; why a call failed; and over a server whose tools act on a house, the completed entities are as the action wants them and everything else is as it was |
| Executor.SuccessShows | src/home_assist_agent/devices/executor.py:48-169 | a batch to turn on that fully succeeds leaves every target on, one to turn off every target off, one to set the brightness every target at it, and no entity outside the target is touched, whatever the house was like |
| Effects.CallsAchieve | src/home_assist_agent/devices/executor.py:48-52 | any calls with the action's tool, one for each of these entities, have that effect on those and on nothing else |
| Executor.TargetIsConserved | src/home_assist_agent/devices/executor.py:130-169 | completed, the at most one failed, and skipped are the target in order; calls match completed one for one and what they were sent differs only in the entity's name |
| Executor.OnlyTheActionsToolIsCalled | src/home_assist_agent/ha/safety.py:36-63 | the tool lookup succeeds exactly when nothing in the call is unsafe and the server lists a tool that does what the action asks (HassTurnOn, HassTurnOff, HassLightSet, alone or behind a prefix), and then with such a tool; its error says which of the two it was |
| Executor.LearnsExactlyWhen | src/home_assist_agent/terms/service.py:240-254 | a term is learned exactly when every call succeeded, which is when all of the verified target was completed |
| Executor.PlannedArgumentsAreClean | src/home_assist_agent/commands/service.py:1058-1075 | for a planned action the shallowly stripped parameters are overlaid by the deeply cleaned plan, so no target field survives at any depth but the entity's name |
| Executor.NamesOnlyItsEntityExactlyWhen | src/home_assist_agent/devices/executor.py:121-136 | with or without a plan: a call names no target but its entity exactly when none of the parameters passed on as they are does |
| Executor.DirectTargetSurvives | src/home_assist_agent/devices/executor.py:121-136 | a direct command whose parameters hold an area sends it along |
| Tsl.Decides | modules/iot-mcp/backend/src/iot_mcp/domain/tsl.py:140-206 | for every valid type: an accepted value is of the type it is read as, a rejected one is not, and a schema error needs a null item |
| Tsl.Adequate | modules/iot-mcp/backend/src/iot_mcp/domain/tsl.py:140-206 | for a valid type without null items: no schema error on any JSON value, and exactly the values of the type's recursive meaning are accepted; what that is on the keys is `TslMeaning.AcceptedExactlyWhen` |
| TslMeaning.AcceptedExactlyWhen | modules/iot-mcp/backend/src/iot_mcp/domain/tsl.py:140-206 | for every valid description and JSON value, on the description's own keys: a number is accepted exactly when it is at least every number under "min", at most every number under "max", and with both "min" and "step" a whole number of steps from the minimum up to a billionth; text and lists within "length" or "size", or "maxLength" without them; a struct with declared identifiers only, the required ones there and each fitting its "dataType"; an enum's text among the keys; lists item by item |
| TslMeaning.ValidExactlyWhen | modules/iot-mcp/backend/src/iot_mcp/domain/tsl.py:24-129 | a description is valid exactly when its keys say what its type demands, at every depth: numbers that are numbers with min at most max and a positive step, limits that are null or not negative, members, fields with different identifiers, item types |
| Tsl.RoundIsNearest | modules/iot-mcp/backend/src/iot_mcp/domain/tsl.py:178-181 | the rounding test holds exactly when the ratio is within a billionth of some whole number |
| Tsl.NullItemFailsExactlyWhen | modules/iot-mcp/backend/src/iot_mcp/domain/tsl.py:197-206 | under an explicit null `item` a schema error is raised exactly for the lists within the size, and nothing is accepted |
| Tsl.SchemaErrorFreeExactlyWhen | modules/iot-mcp/backend/src/iot_mcp/domain/tsl.py:117-129 | a valid type and all types inside it check every value without schema error exactly when no array has an explicit null `item` |
| Tsl.NullItemExample | modules/iot-mcp/backend/src/iot_mcp/domain/tsl.py:117-129 | an array type that passes validation and fails on the empty list |
| TslService.ValidateStructSpecs | modules/iot-mcp/backend/src/iot_mcp/domain/tsl.py:95-110 | the loop that remembers identifiers accepts exactly the lists of well-formed fields with pairwise different identifiers |
| TslService.FieldsOkExactlyWhen | modules/iot-mcp/backend/src/iot_mcp/domain/tsl.py:95-110 | the recursive test behind validation means the same: each field well formed, no identifier twice |
| TslService.ValidateInputs | modules/iot-mcp/backend/src/iot_mcp/domain/tsl.py:243-252 | for any declared inputs: the first input not accepted decides; accepted means a value of the struct they form, rejected means none, and only an input type with a null item gives a schema error |
| TslMeaning.InputsAcceptedExactlyWhen | modules/iot-mcp/backend/src/iot_mcp/domain/tsl.py:243-252 | a call is accepted exactly when it names declared inputs only, all that are required, and each value fits its description |
| Assembly.Assemble | modules/iot-mcp/backend/src/iot_mcp/adapters/outbound/home_assistant/provider.py:225-266 | groups in order of feature type and capability, each in stable order, each binding named |
| Assembly.SortedInOrder | modules/iot-mcp/backend/src/iot_mcp/adapters/outbound/home_assistant/provider.py:252-258 | a group is listed by registry identity, then entity |
| AssemblyTheorems.EveryBindingOnce | modules/iot-mcp/backend/src/iot_mcp/adapters/outbound/home_assistant/provider.py:225-266 | every raw binding of every entity is on the assembled device exactly once |
| AssemblyTheorems.EveryEntryIsThere | modules/iot-mcp/backend/src/iot_mcp/adapters/outbound/home_assistant/provider.py:259-266 | a lone binding is named after its capability, several are numbered _1.._n by their place |
| AssemblyTheorems.AssembledIsListed | modules/iot-mcp/backend/src/iot_mcp/adapters/outbound/home_assistant/provider.py:225-266 | on the bindings' own fields: the list goes by feature type, capability, registry identity and entity; a binding alone with its feature type and capability is named after the capability, and several are numbered 1, 2, ... as they are listed |
| AssemblyTheorems.DistinctExactlyWhen | modules/iot-mcp/backend/src/iot_mcp/adapters/outbound/home_assistant/provider.py:259-266 | identifiers are distinct within each feature type exactly when no lone capability reads like a number of a larger group |
| AssemblyTheorems.ClashExample | modules/iot-mcp/backend/src/iot_mcp/adapters/outbound/home_assistant/provider.py:259-266 | two bindings of A beside one of A_1 clash |
| AssemblyTheorems.ServiceIdentifierIsPlain | modules/iot-mcp/backend/src/iot_mcp/adapters/outbound/home_assistant/mapping.py:125-126 | service identifiers contain no underscore |
| AssemblyTheorems.MappedNamesAreDistinct | modules/iot-mcp/backend/src/iot_mcp/adapters/outbound/home_assistant/mapping.py:26-32 | devices assembled from mapped bindings have distinct identifiers in each feature type |
| Brightness.PercentSurvives | modules/iot-mcp/backend/src/iot_mcp/adapters/outbound/home_assistant/mapping.py:12-19 | every whole percentage survives the way to 0..255 and back |
| Brightness.HaBrightnessSurvivesExactlyWhen | modules/iot-mcp/backend/src/iot_mcp/adapters/outbound/home_assistant/mapping.py:12-19 | a whole brightness 0..255 survives the way to percent and back exactly when 20 h mod 51 is at most 9 or at least 42, or a tie and h even |
| Brightness.HaBrightnessIsLost | modules/iot-mcp/backend/src/iot_mcp/adapters/outbound/home_assistant/mapping.py:12-19 | for example 1 becomes 0 |
| Brightness.InRange | modules/iot-mcp/backend/src/iot_mcp/adapters/outbound/home_assistant/mapping.py:12-19 | both conversions stay in range for every number |

## Left out

- Coroutines as methods: `submit`, `decide`, `execute_approved`, `_execute`, the term store's calls, `EventService.handle` and `MessageChannel.execute` are step machines, because they interleave at every await. The tables they work on are classes, and the machines change a table by the same functions that the classes are proved against.
- Operation statuses: nothing is claimed about which status is final, because a decision can land between the insert of a confirmation and the pending status being written.
- Ledger.OperationTable.UpdateOperation: does not model the `provider_request` and `provider_result` columns, which no decision of the protocol reads.
- Time stamps of rows, redaction, `retryable` flags and messages of errors.
- Audit records: they may fail between steps, which the machines model as a process stopping; what they contain is not modelled.
- Device rows: every read of a device returns an arbitrary row, which covers all updates and syncs of them.
- Action validation against the active thing model inside `submit` is an input of the step; the validator itself is `Tsl`.
- Message notifications, signatures, sessions and tokens.
- Legacy rows: the control machine starts from any database that respects its keys; for operations not created in the run the gate theorem gives the approval but not who was meant to be asked.
- Home promotion, the wording of corrections and the correction resolver; a correction is a reject followed by an approved create, two calls of the term machine.
- `visible_terms` with its order: the candidates depend on the set of terms only, which is proved.
- Conversation threads and their binding; messages without a configured conversation store.
- Display fields of candidates and choices (names, areas, domains, states) and the wording of evidence.
- Infinite and not-a-number bounds in TSL, which the string forms of `float` admit, and rounding of large numbers.
- `datetime` objects as TSL values: values are JSON.
- TSL documents: access modes and identifiers across features.
- State values, metadata, risk and fingerprint of an assembled device, and the provider's route and availability caches; `str.capitalize` is modelled on ASCII letters.
- Schema validation and execution of one call: after the tool lookup a call answers with an arbitrary result or error.
- Routes, user interface, Home Assistant and language-model clients, settings, health.
