# Cadena: verified protocol models

Cadena is a synchronisation control plane: it keeps twins of records that live in Jira, ServiceNow and other providers,
carries changes between them, and records what it did. Its durable state is a set of rows that many workers change one
SQL statement at a time. These Dafny modules model the protocols over those rows, the time arithmetic of its flow
reports and its bounded graph searches, and prove what they promise: for every input, every run or every interleaving.

Each SQL statement, each transaction, and each stretch of code between two awaits is one atomic step; anything may
happen between two steps. Clocks are integers of milliseconds that do not run backwards; generated UUIDs are fresh; a
state machine `Next` describes what a step does and `Run` what any list of steps does. Where the program changes rows or
fields in place, a class carries them, and each method is proved to do exactly what the step of the state machine does.

| module | what it covers |
|---|---|
| `WorkOrderQueue`, `WorkOrderFifo` | the per-twin FIFO queue of provider writes: leases, retries, holds, deferral, re-injection |
| `IngestionQueue`, `IngestionOrder`, `IngestionLeases`, `IngestionBreaks` | the per-partition queue of incoming records under the sync lease: exactly which steps break its order, when none does, and two runs that do |
| `BackfillPaging`, `WatermarkPolling` | page tokens of a backfill window; the watermark loop and repeated polls |
| `CanonicalJson`, `CanonicalOrder`, `CanonicalText`, `AuditProof`, `StoredIds`, `AuditAppend` | the canonical printer, the hash chain, its verification, identifiers as the database returns them, and optimistic appending by many writers |
| `RateGovernor`, `RateQuota`, `ConcurrencyGate` | quota windows, load shedding with probe tokens, the in-process gate |
| `BusinessTime`, `FlowProfile`, `FlowReport` | state intervals, clipping, business time and blocker attribution |
| `EventDelivery`, `EventRuns`, `EventAnswers` | outbox, consumer registry and dead letters under crashes, and what the handlers answered |
| `StateTranslation`, `TwinConvergence`, `TwinRuns` | required fields of a translated state; order-independence of twins and projections, and what overlapping calls do to it |
| `GraphLayers`, `CorrelationSearch`, `ServiceImpact`, `AutomationPath` | three depth-bounded searches against shortest walks |

## Where the code differs from an obvious claim

- The README of the repository (line 488) says that exactly one call is out as a probe. The code clears the stored token
  when any other call fails under pressure, so two can be out (`RateGovernor.TwoProbesAtOnce`). Without such a failure
  the probe is alone until its answer or its lease's end (`ProbeIsAlone`); with one whose delay ends before the lease,
  and quota left, a second token is granted (`PressureLetsASecondProbeOut`).
- `processDueIngestionRecords` promises per-partition order, but neither the claim nor the settling statement asks for
  it. A worker that outlives its sync lease and its claim, as a drain without a heartbeat can, reopens a completed
  record (`IngestionBreaks.LateFailureBreaksOrder`); and re-injection recomputes the partition of a record whose payload
  left a name out, which can move it in front of records already done (`CorrectionBreaksOrder`). These are the only ways
  (`IngestionOrder.OrderedIff`, `IngestionIsFifoIff`); settling within the lease, or within the claim, and re-injecting
  only records whose payload names both is enough (`IngestionLeases`).
- The chain verification compares the hash of the caller's text with what the database gives back, and UUID columns give
  back small letters. A transition requested under a work item id in capitals, which the lookup finds, is recorded and
  makes an honest chain fail for good (`AuditAppend.CapitalsBreakChain`); so would a tenant id in capitals, or a domain
  event with an empty work item id, which reads back as none. `HonestRunVerifies` says exactly which events do.
- `processRecord` does not advance the stored timestamp for equal content, so arrival order can matter
  (`TwinConvergence.EqualContentRefutes`); `ConvergesIff` and `EndsOnNewestIff` say exactly when it does not.
- `processRecord` and `projectTwin` check the stored row and update it with a later statement that does not repeat the
  check. Calls that overlap can put an older snapshot under a newer timestamp, or the twin back to an older record
  (`TwinRuns.OverlapDiverges`); `InTurnIff` says exactly when they do not.
- A required target field `__proto__` passes validation and evaluation but is not sent (`StateTranslation.ProtoIsNotSent`,
  `OnePathIsPickedIff`).
- `acquireConcurrency` can exceed its limit between a wake-up and its continuation (`ConcurrencyGate.LimitIsExceeded`);
  `OverrunsIff` names the arrival that does it and `GateHolds` bounds the excess.

## Assumptions

- Statements are atomic and unique constraints are enforced; queue positions are allocated in the order of insertion,
  so a position is an index. Sequence numbers of the audit table may be drawn before the insert and leave gaps.
- SHA-256 is any function to 64 hexadecimal digits. Results about histories need that it does not collide on the texts
  actually hashed; nothing else is assumed about it.
- Provider tables and sources do not change while they are paged or polled; their timestamps are natural numbers, and
  the lower bound of a query is any instant not above the watermark.
- A worker of the ingestion queue is one call of a sync or a drain at a time; its lease owner is fresh in each call.
- In `TwinConvergence` reading a row and updating it is one step, as when the queue hands the records of one artifact
  out one by one; `TwinRuns` separates the two.
- The event and work item rows of an audit entry are untouched and the item stays in its tenant; instants, numbers and
  texts other than UUIDs come back as they were given.
- The correlation graph does not change between the layer queries of one `resolve`.
- Any number of events are dispatched at once, but each by one dispatcher at a time, and its dead letters are not
  replayed meanwhile. Registrations do not change. The statements of a delivery do not fail; handlers and wildcard
  handlers may.
- A rate policy is never raised. A retryable failure carries any delay; jitter and back-off curves only choose it.

## Model

| member | source | states |
|---|---|---|
| `WorkOrderFifo.OrdersSettleInQueueOrder` | src/modules/connectors/connector.service.ts:1610-1678 | In every run, by any number of workers and with crashes, expiries, deferrals, restarts and re-injections, the settlements of a twin in commit order are a prefix of its queue, and its executed and noop rows are exactly those. |
| `WorkOrderFifo.OneOrderInFlight` | src/modules/connectors/connector.service.ts:1655-1678 | Two orders of one twin are never in processing together, and everything before the one that is has been settled. |
| `WorkOrderFifo.EveryStepIsSafe` | src/modules/connectors/connector.service.ts:1639-1948 | After every run, every further step keeps an order at its position and twin, leaves an executed or noop row untouched, first claims an order only behind settled predecessors, and makes an order dead only by a failure that may not be retried or is at least the fifth counted attempt. |
| `WorkOrderFifo.FirstClaimIsAtTheHead` | src/modules/connectors/connector.service.ts:1655-1678 | An order leaves its never-claimed state only by a claim, at an instant when every earlier order of its twin is settled, although the check and the claim are separate statements. |
| `WorkOrderFifo.HeadIsClaimedIff` | src/modules/connectors/connector.service.ts:1639-1678 | Load, check and claim of one undisturbed worker take an order if and only if its target connector is activated and not paused, it is claimable, and it is at the head of its queue. |
| `WorkOrderFifo.LiveClaimIsExclusive` | src/modules/connectors/connector.service.ts:1667-1678 | While its lease runs, a claim ends only by the worker that holds it. |
| `WorkOrderFifo.RenewsAs` | src/modules/connectors/connector.service.ts:2764-2773 | The heartbeat of the holder extends its claim by two minutes, and nobody else's does. |
| `WorkOrderFifo.SettledIsFinal` | src/modules/connectors/connector.service.ts:1850-1857 | No step changes a settled row, and no step moves an order or its twin; re-injection keeps the place. |
| `WorkOrderFifo.SettledOnlyByOutcome` | src/modules/connectors/connector.service.ts:1783-1868 | In every run an order becomes executed, noop or held exactly when the worker that holds its claim settles a change that was written, had nothing to write, or needs an operator. |
| `WorkOrderFifo.SettlesAsIff` | src/modules/connectors/connector.service.ts:1783-1948 | Exactly which outcome of a held claim leaves which status; a retryable failure is retried exactly below five attempts. |
| `WorkOrderFifo.StatusChangesIff` | src/modules/connectors/connector.service.ts:896-911 | A step changes the status of an order exactly if its holder settles or defers it, the start-up finds its claim expired, an operator re-injects a dead or held one, or a worker claims a waiting one. |
| `WorkOrderFifo.OpenOrderBlocksLater` | src/modules/connectors/connector.service.ts:1657-1663 | In every run an order that is neither executed nor noop, held and dead ones included, keeps every later order of its twin out of processing, and no step takes one. |
| `WorkOrderFifo.DeadOnlyByFailure` | src/modules/connectors/connector.service.ts:1895-1926 | Only the holder of the claim can declare an order dead, and for a retryable failure the claims less the deferrals since injection are at least five; so shedding alone never does. |
| `WorkOrderFifo.AttemptsAreBounded` | src/modules/connectors/connector.service.ts:896-911 | In every run attempts equal claims minus deferrals since the last injection, exceed five by at most the number of lapsed claims, and are below that for an order that waits. |
| `WorkOrderQueue.Table.IsBlocked` | src/modules/connectors/connector.service.ts:1657-1663 | The blocked check answers true exactly if an unsettled order of the twin has a lower position. |
| `WorkOrderQueue.Table.ExecuteAlone` | src/modules/connectors/connector.service.ts:1639-1868 | One undisturbed execution takes an order exactly if its connector is ready, it is claimable and everything before it is executed or noop; it then ends executed, noop or held exactly as the change was written, had nothing to write or needs an operator, failed exactly for a retryable failure before the fifth attempt, else dead; otherwise nothing changes. It leaves the table that the four protocol steps leave. |
| `IngestionOrder.IngestionIsFifoIff` | src/modules/connectors/connector.service.ts:913-1047 | From the empty queue, for every run: the claimed and queried records have only completed records of their partition before them all along if and only if no step of the run overtakes, that is, reopens a record, or moves one by a correction, in front of a record of that partition that is claimed or about to be claimed (or moves one that is about to be claimed behind an open one). |
| `IngestionOrder.OrderedIff` | src/modules/connectors/connector.service.ts:920-967 | In every consistent state with the order intact, a step breaks it exactly if it overtakes in this sense. |
| `IngestionOrder.ClaimsInOrderIff` | src/modules/connectors/connector.service.ts:956-1022 | The same for claimed records alone: a step breaks the order of the claims exactly if it reopens or moves a record in front of a claimed record of that partition. |
| `IngestionLeases.OrderHoldsWithinLeases` | src/modules/connectors/connector.service.ts:2731-2762 | If every record is settled by the holder of an unexpired sync lease, and only records whose dead payload names the artifact type and the record are re-injected, the order holds after every step. |
| `IngestionLeases.OrderHoldsWithinClaims` | src/modules/connectors/connector.service.ts:949-998 | The same if every record is settled before the two minutes of its claim have run out. |
| `IngestionLeases.NamedNeverMoves` | src/modules/connectors/connector.service.ts:2056-2083 | In every run, re-injecting a record whose payload names both leaves it in its partition, whatever the correction. |
| `IngestionOrder.CompletedIsLostIff` | src/modules/connectors/connector.service.ts:989-1022 | A record leaves completed exactly when a worker that still works on it, its claim taken over, settles it with a failure. |
| `IngestionBreaks.LateFailureBreaksOrder` | src/modules/connectors/connector.service.ts:715-738 | A run with the sync lease: a drain that never renews it outlives lease and claim, a second drain completes the record and claims the next one of its partition, and the late failure puts the completed record back to retry behind it. |
| `IngestionBreaks.CorrectionBreaksOrder` | src/modules/connectors/connector.service.ts:2056-2083 | A run in which nobody is late: a record without a name dies after five syncs, a later record is completed, and a correction gives the first one the partition of the second, where it is pending before a completed record. |
| `IngestionQueue.Table.IsDue` | src/modules/connectors/connector.service.ts:920-940 | A record is due exactly if it is claimable, its next attempt is not in the future, and every earlier record of its partition is completed. |
| `IngestionQueue.Table.DueBatch` | src/modules/connectors/connector.service.ts:920-940 | The query of a drain returns the due records in queue order, all of them or the first fifty. |
| `IngestionQueue.SettlesAs` | src/modules/connectors/connector.service.ts:976-1022 | A settled record is completed, or back in retry until now plus the delay, or dead from the fifth attempt on; the delay is half a minute, doubled with every attempt, up to an hour. |
| `IngestionQueue.DeferredUntil` | src/modules/connectors/connector.service.ts:896-911 | A record its holder defers gives its attempt back and is due exactly from the given instant on, when everything before it in its partition is completed. |
| `IngestionQueue.LeaseChangesAs` | src/modules/connectors/connector.service.ts:2731-2762 | The sync lease lasts five minutes, goes to nobody else before it has run out, and is renewed and released only by its holder. |
| `BackfillPaging.ReadWindow` | src/modules/connectors/servicenow-connector.adapter.ts:185-222 | Following the page tokens to the end terminates and yields exactly the rows of the window, in order and each once, in the number of pages the rows need, however many rows share a timestamp. |
| `BackfillPaging.PageIsNextSlice` | src/modules/connectors/servicenow-connector.adapter.ts:185-222 | From a token at the right place, one page is the next slice, and a next token exists exactly for a full page and is at the right place again. |
| `BackfillPaging.TokenResumes` | src/modules/connectors/servicenow-connector.adapter.ts:214-221 | The timestamp and the skip count of a next token name the exact place after the page, also when its timestamp continues from pages before. |
| `BackfillPaging.FetchBackfillPage` | src/modules/connectors/servicenow-connector.adapter.ts:185-222 | A fetch fails exactly for a malformed token; otherwise the page never exceeds the page size, and it has a next token exactly if it is full. |
| `WatermarkPolling.PollPages` | src/modules/connectors/servicenow-connector.adapter.ts:224-262 | The page loop terminates; it returns a prefix of the query and the highest timestamp of it, stops early only after a newer record was read, and goes over the page budget only while none was. |
| `WatermarkPolling.PollServiceNow` | src/modules/connectors/servicenow-connector.adapter.ts:224-262 | The offset pages of ServiceNow give such a poll. |
| `WatermarkPolling.PollingIsComplete` | src/modules/connectors/jira-connector.adapter.ts:202-239 | In every run of polls and crashes over an unchanging source nothing older than the cursor is missing and nothing is queued twice, and after more commits than records every record is queued; for any lower bound not above the watermark. |
| `WatermarkPolling.AdaptersPollCompletely` | src/modules/connectors/jira-connector.adapter.ts:137-145 | Polls under the exact bound of ServiceNow, or under the bound of Jira, one minute back and cut to the minute, miss nothing and end with every record queued. |
| `WatermarkPolling.CommitProgresses` | src/modules/connectors/jira-connector.adapter.ts:215-237 | A committed poll that did not exhaust the query strictly raises the cursor past some record. |
| `WatermarkPolling.CommitIsSafe` | src/modules/connectors/connector.service.ts:739-756 | A committed page leaves no record at or before the cursor out of the queue, and an exhausted query leaves none out at all. |
| `WatermarkPolling.CursorMovesForward` | src/modules/connectors/connector.service.ts:739-756 | The cursor never moves back, and every record of a committed page is in the queue with a timestamp the cursor has reached. |
| `WatermarkPolling.IngestionStore.AcceptPage` | src/modules/connectors/connector.service.ts:812-864 | Accepting a page queues exactly its records that are not there yet, in order, and moves the cursor in the same transaction. |
| `WatermarkPolling.EnqueuedHolds` | src/modules/connectors/connector.service.ts:834-858 | Enqueuing keeps what is queued in place, adds every record of the page and repeats none. |
| `CanonicalOrder.SameTextIffEquivalent` | src/modules/audit/audit-integrity.ts:28-35 | For any JSON values, the canonical texts are equal exactly when the values are equal up to the order of object keys. |
| `CanonicalOrder.TextIsUnambiguous` | src/modules/audit/audit-integrity.ts:28-35 | A parser of the grammar of sections 3 to 7 of RFC 8259 without insignificant white space reads a canonical text back, completely, to the value with its keys sorted. |
| `CanonicalOrder.StringifyRecursion` | src/modules/audit/audit-integrity.ts:29-35 | The canonical text is the recursion of the program: elements in order; the members of an object, each once, such that of any two the earlier key is a proper prefix of the later one or has the smaller code unit where they first differ. |
| `CanonicalJson.ReadPrinted` | src/modules/audit/audit-integrity.ts:28-35 | Reading a printed value followed by any text that cannot continue it gives the value and that text. |
| `CanonicalText.UnitText` | src/modules/audit/audit-integrity.ts:30 | In numbers, which characters of a string are escaped, and how. |
| `CanonicalText.PiecesOfText` | src/modules/audit/audit-integrity.ts:30 | A string is escaped piece by piece, wherever it is cut except inside a surrogate pair. |
| `AuditProof.VerifyTenantAuditChain` | src/modules/audit/audit-integrity.ts:128-205 | The chain is verified exactly when every row is linked to the one before, hashes correctly, and hashes the same for its current source event under the current proof version. |
| `AuditProof.SameHeadSameHistory` | src/modules/audit/audit-integrity.ts:128-205 | Two verified chains with the same head hash, none of whose hashed texts collide, have the same length and the same record at every place. |
| `AuditProof.SameHashSameRecord` | src/modules/audit/audit-integrity.ts:55-61 | Entries of verified chains with equal hashes record the same event with the same predecessor. |
| `AuditProof.CanonicalEventIsFaithful` | src/modules/audit/audit-integrity.ts:37-53 | Two events have equivalent canonical forms exactly when every field of them agrees. |
| `AuditProof.CanonicalFields` | src/modules/audit/audit-integrity.ts:37-53 | The names and values that are hashed of an event. |
| `AuditAppend.OneUnbranchedPath` | src/modules/audit/audit-integrity.ts:79-113 | In every interleaving of writers and crashes, a tenant's entries form one path in which link order is sequence order and hashes are distinct, and an event is recorded at most once. |
| `AuditAppend.LostRaceMeansProgress` | src/modules/audit/audit-integrity.ts:93-111 | In every run the constraint rejects a writer's insert exactly when the chain has grown since the writer read its head. |
| `AuditAppend.RejectedIffStale` | src/database/database.service.ts:983-993 | On an unbranched chain, a remembered hash has a successor exactly if it is not the head. |
| `AuditAppend.HonestRunVerifies` | src/modules/audit/audit-integrity.ts:128-205 | The untouched entries of every run, joined with their untouched events and read back with keys in any order, form a correct chain if every event among them was spelled as it is stored: its UUIDs in small letters and hyphenated, and no domain event with an empty work item id; where the hashed texts do not collide, only then. |
| `AuditAppend.EventReadsBackIff` | src/modules/audit/audit-integrity.ts:165-192 | A source event reads back with an equivalent canonical form exactly if it was spelled as it is stored. |
| `AuditAppend.CapitalsBreakChain` | src/modules/workflow/workflow.service.ts:523-538 | A run that appends one audit event whose work item id has its letters in capitals: nothing is touched, and the chain does not verify, for any such id with a letter. |
| `StoredIds.StoredIff` | src/database/database.service.ts:180-202 | A UUID comes back from its column as it was given exactly if it was given in small letters, hyphenated at the four places; and always names the same UUID. |
| `AuditAppend.AuditTable.Append` | src/modules/audit/audit-integrity.ts:79-113 | The retry loop removes nothing; an inserted entry is linked to the end of the chain it met at its insert, however many races were lost before; a skipped event is recorded already; keys that are not UUIDs are refused; and an undisturbed append of a new event inserts it. |
| `AuditAppend.AuditTable.TryInsert` | src/modules/audit/audit-integrity.ts:93-107 | The insert is a no-op for a known event, loses exactly to a row with the same predecessor, and otherwise appends the row unless its hash is taken. |
| `RateGovernor.SheddingProtocol` | src/modules/connectors/rate-governor.ts:246-456 | After every run, for every further step, with clock readings that may be old: inside an episode a call is admitted only after shed_until, while no stored lease runs, and with a fresh token that becomes the stored one; exactly the credited success of the stored token ends the episode; shed_until never moves back within it; an episode starts exactly with the pressure failure of a call that completes the streak; and Started and Ended alternate with shed_episodes counting the starts. |
| `RateGovernor.ProbeIsAlone` | src/modules/connectors/rate-governor.ts:265-278 | Until a clearing step or the end of its lease the stored probe stays stored, no other call is admitted and no token granted. |
| `RateGovernor.ProbeIsDroppedIff` | src/modules/connectors/rate-governor.ts:421-450 | While its lease runs, the stored probe is dropped exactly by its own answer or by a pressure failure of any call. |
| `RateGovernor.PressureLetsASecondProbeOut` | src/modules/connectors/rate-governor.ts:421-450 | From any consistent state with a probe out: if another call that is out fails under pressure with a delay that ends before the lease, and quota is left then, the next call is granted a second token while the first lease still runs. |
| `RateGovernor.TwoProbesAtOnce` | src/modules/connectors/rate-governor.ts:436-450 | A run of admitted and answered calls with two probes out at once, both leases running. |
| `RateGovernor.GovernanceRow.AcquireQuota` | src/modules/connectors/rate-governor.ts:246-326 | The update statements of one admission transaction leave the row and give the answer of the specification. |
| `RateGovernor.AdmittedIff` | src/modules/connectors/rate-governor.ts:265-314 | A call is admitted exactly if no episode runs, or its pressure has run out and no probe lease runs, and the call is the first of its window or a hundred times the calls with it is at most the requests per minute times the percentage, both tightened; else it is shed without any effect on the quota, or waits for the end of the window. |
| `RateGovernor.ShedsAfterStreak` | src/modules/connectors/rate-governor.ts:328-336 | In every run an episode starts exactly with the answer that makes as many pressure answers in a row as the policy says; a success, or a failure of another kind, starts the count over. |
| `RateGovernor.GovernanceRow.RecordFailure` | src/modules/connectors/rate-governor.ts:382-456 | The update statements of one failure leave the row and the event of the specification. |
| `RateQuota.QuotaHolds` | src/modules/connectors/rate-governor.ts:279-308 | In every run a window admits more than one call only if a hundred times their number is at most the requests per minute times the percentage in force at the latest of them; windows start at least 60,000 ms apart, and any span of 60,000 ms sees at most twice the calls that fit the policy the row was created with; clock readings up to s ms old let one more window count for each started 60,000 ms of s. |
| `RateQuota.PolicyOnlyTightens` | src/modules/connectors/rate-governor.ts:283-304 | No action raises the stored policy, and the policy in force at an admission is at most that of the call. |
| `RateQuota.TwiceTheLimitHappens` | src/modules/connectors/rate-governor.ts:279-308 | A run that admits twice the limit within 60,000 ms, so the factor cannot be lowered. |
| `RateQuota.AdmissionIsWithinLimit` | src/modules/connectors/rate-governor.ts:279-304 | A call is admitted only within the tightened limit, which never rises, and a refused call uses nothing. |
| `RateQuota.RefusalsAreHonest` | src/modules/connectors/rate-governor.ts:265-294 | The wait a call is told ends with its window, and then the quota no longer refuses it; a shed call is sent to a later instant, the end of the shedding window or, while a probe is out, one base back-off but not past its lease. |
| `ConcurrencyGate.GateHolds` | src/modules/connectors/rate-governor.ts:225-243 | In every run waiting calls are resumed in order of arrival and none is lost, a call waits only while all places are taken or promised, and calls in flight exceed the limit the gate was created with by at most the number of arrivals that took a promised place; a limit lowered later may be exceeded by more. |
| `ConcurrencyGate.ExcessGrowsIff` | src/modules/connectors/rate-governor.ts:225-243 | Whatever the limit was lowered to, a step takes the taken and promised places further beyond the limit in force exactly if it is an arrival that takes a promised place. |
| `ConcurrencyGate.OverrunsIff` | src/modules/connectors/rate-governor.ts:229-234 | While taken and promised places fit the limit, a step breaks that exactly if it is an arrival that takes a promised place or that lowers the limit below them. |
| `ConcurrencyGate.LimitWillBeExceededIff` | src/modules/connectors/rate-governor.ts:229-242 | In every run, the continuations that are due anyway take the calls in flight over the limit exactly if taken and promised places exceed it. |
| `ConcurrencyGate.LimitIsExceeded` | src/modules/connectors/rate-governor.ts:229-234 | A run with two calls in flight under a limit of one. |
| `BusinessTime.BusinessMs` | src/modules/flow/flow-profile.ts:98-118 | The day loop counts exactly the milliseconds of the range that fall on Monday to Friday, 09:00 to 17:00 UTC, for all integer instants. |
| `BusinessTime.OpenMsIsAdditive` | src/modules/flow/flow-profile.ts:98-118 | Business time is additive over adjacent ranges. |
| `BusinessTime.OpenMsIsMonotone` | src/modules/flow/flow-profile.ts:98-118 | Business time of a range is at most that of a range around it. |
| `BusinessTime.OpenMsIsBounded` | src/modules/flow/flow-profile.ts:98-118 | Business time is at most wall-clock time, equal to it around the clock, and zero on an empty range. |
| `FlowProfile.BuildIntervals` | src/modules/flow/flow-profile.ts:45-84 | For any event list the intervals are ordered, disjoint and non-empty, hold exactly the state and entry reason the item had at every instant outside terminal states, starting from the recorded origin of the earliest event or else the current state; only the last may be open, their length plus the terminal time is the whole span, and the anomalies are exactly the events that contradict the state before them and those before the creation. |
| `FlowProfile.SortIsStable` | src/modules/flow/flow-profile.ts:52-56 | Sorting orders the events by time, keeps them all, and keeps the order of simultaneous ones. |
| `FlowProfile.TimelineConserves` | src/modules/flow/flow-profile.ts:63-83 | Interval lengths plus terminal time equal the span from creation to the latest of creation, now and the events. |
| `FlowReport.ClipIntervals` | src/modules/flow/flow-profile.ts:86-96 | Clipping leaves exactly the parts of the intervals inside the window. |
| `FlowReport.ClipAllIsExact` | src/modules/flow/flow-profile.ts:86-96 | An instant is in a clipped interval exactly if it is in the window and in an interval. |
| `FlowReport.WindowSplits` | src/modules/flow/flow.service.ts:204-213 | Splitting a report window at any instant splits every bucket total, before rounding, exactly. |
| `FlowReport.ItemTotals` | src/modules/flow/flow.service.ts:204-213 | The accumulated bucket totals are the business time of the clipped intervals of each class. |
| `FlowReport.WindowKeepsAttribution` | src/modules/flow/flow.service.ts:379-426 | Every clipped piece of a wait is put down to what the whole wait is: the blocking item is the first one linked and not closed when the wait began, the ambiguous ones are the others, and the reason is that of the transition, else the blocker, else the default of the state. |
| `FlowReport.ReportKeepsAttribution` | src/modules/flow/flow.service.ts:379-426 | For any event list and any window, every piece in the report is cut from an interval that was built, and is put down to exactly this, judged when that interval began. |
| `FlowReport.EnteredIsOrigin` | src/modules/flow/flow.service.ts:403-406 | The search for the interval a piece was cut from finds it, because built intervals are disjoint. |
| `FlowReport.OverlapBreaksAttribution` | src/modules/flow/flow.service.ts:403-420 | With overlapping waits the attribution of a piece could change, so the disjointness is needed. |
| `EventRuns.NothingIsLost` | src/modules/events/event-outbox.service.ts:36-132 | In every crash-and-restart run, with any number of events in delivery at once, each committed event is still pending or every subscriber has processed it or has a dead letter for it. |
| `EventRuns.SettledMeansFinishedOrLettered` | src/modules/events/event-outbox.service.ts:36-132 | In every such run, each committed event is still pending, or every subscriber has finished it at least once or has an open or discarded dead letter: a letter is closed as replayed only for a consumer that finished. |
| `EventAnswers.SettledMeansReturnedOrLettered` | src/modules/events/consumer-registry.service.ts:127-147 | In every run, each committed event is still pending, or the handler of every subscriber returned at least once, or an open or discarded dead letter says that it did not. |
| `EventAnswers.ProcessedMeansReturned` | src/modules/events/consumer-registry.service.ts:127-136 | In every run a processed row, and a letter closed as replayed, stand for a handler that returned, and no more completions are recorded than handlers returned. |
| `EventAnswers.RecordsAreAnswers` | src/modules/events/consumer-registry.service.ts:127-147 | In every run a row is marked processed only after the latest answer under its claim was a return, and a letter is written only after all attempts under it failed. |
| `EventAnswers.AnswersAreRecorded` | src/modules/events/consumer-registry.service.ts:127-147 | In every run a return is followed by the mark, a failure by another attempt, and the last failure by the failed row and the letter. |
| `EventAnswers.UndisturbedSuccess` | src/modules/events/consumer-registry.service.ts:108-147 | A delivery or replay in the run that wins its claim leaves, undisturbed, the rows that the dispatch method leaves when an attempt answers. |
| `EventAnswers.UndisturbedExhaustion` | src/modules/events/consumer-registry.service.ts:139-147 | The same when none does. |
| `EventRuns.DeliveryIsFinal` | src/modules/events/consumer-registry.service.ts:108-195 | After every run, no further step, replays and restarts included, takes back that a pair is processed or has a dead letter. |
| `EventRuns.ProcessedIsFinal` | src/modules/events/consumer-registry.service.ts:149-175 | A processed pair leaves that status only by the claim of a forced replay of its dead letter. |
| `EventRuns.ProcessedAtMostOnce` | src/modules/events/consumer-registry.service.ts:177-185 | A consumer finishes an event at most once more than a replay was forced on it. |
| `EventRuns.HandlerRunsUnderClaim` | src/modules/events/consumer-registry.service.ts:121-138 | A handler is called only while its pair is in processing under the claim of that delivery. |
| `EventRuns.BeginsAs` | src/modules/events/dead-letter.service.ts:126-134 | A replay begins exactly for a letter that is not discarded; a start-up fails every row left in processing. |
| `EventDelivery.EventStore.DispatchTo` | src/modules/events/consumer-registry.service.ts:108-147 | A delivery is skipped exactly if its claim loses; otherwise it ends at the first attempt that answers, marked processed with its letter cleared, or after all attempts, marked failed with a dead letter. |
| `EventDelivery.EventStore.Dispatch` | src/modules/events/event-outbox.service.ts:86-112 | Undisturbed, a dispatch ends, settles the marker exactly if the wildcard handlers return, and then every subscriber has processed the event or has a letter; it takes no earlier delivery back. |
| `EventDelivery.EventStore.Replay` | src/modules/events/dead-letter.service.ts:120-176 | A replay is refused exactly for an unknown or discarded letter or an unregistered consumer, changing nothing; otherwise it tries the handler and leaves the letter replayed and the row processed exactly if an attempt answers, dead and failed if none does. |
| `EventDelivery.HandlingSettlesLetter` | src/modules/events/consumer-registry.service.ts:197-246 | Success leaves no open letter; exhausted attempts leave an open letter and a row the next delivery may claim. |
| `EventDelivery.SkipIsSafeIff` | src/modules/events/consumer-registry.service.ts:117-119 | A skipped delivery is covered exactly if the pair was not in flight elsewhere or has a letter. |
| `StateTranslation.RequiredFieldsAreSent` | src/modules/connectors/connector.service.ts:1725-1772 | Whenever a changed state is translated as ready and no required path has a segment `__proto__`, the fields sent hold a non-blank value at every required path, the very value the decision was made on: for any nested source fields, overlapping paths, field-mapping output and earlier fields. |
| `StateTranslation.PickingIsFaithful` | src/modules/connectors/connector.service.ts:3079-3094 | Under a top-level key whose paths the source all has, picking copies every one of them, in any order and however they overlap, if no path has a segment `__proto__`. |
| `StateTranslation.OnePathIsPickedIff` | src/modules/connectors/connector.service.ts:3079-3094 | A single path that the source has is picked exactly if no segment of it is `__proto__`. |
| `StateTranslation.ProtoIsNotSent` | src/modules/integrations/state-mapping.service.ts:24 | A rule that requires the field `__proto__` and a source that has it: the change is ready and the write lacks the field. |
| `StateTranslation.PickPaths` | src/modules/connectors/connector.service.ts:3079-3094 | The nested loops compute the picked fields of all paths. |
| `StateTranslation.FindValue` | src/modules/integrations/state-mapping.service.ts:513-521 | The walk finds a value exactly if own fields of records lead along the path to one that is neither null nor blank. |
| `StateTranslation.HeldForFieldsIff` | src/modules/integrations/state-mapping.service.ts:286-361 | With a matching rule a change is held for its fields exactly if one is missing, and ready exactly if none is and the rule names no earlier states, or names the present one. |
| `StateTranslation.FirstRuleIsFirst` | src/modules/integrations/state-mapping.service.ts:307-309 | The deciding rule is the first one of the direction and state, and there is none exactly when no rule matches. |
| `StateTranslation.DecidingRule` | src/modules/integrations/state-mapping.service.ts:307-309 | It is the first one of the direction whose state is the changed one. |
| `StateTranslation.DirectionIff` | src/modules/integrations/state-mapping.service.ts:286-309 | A mapping is read forwards or backwards exactly as its endpoints are those of the change, and not at all otherwise. |
| `TwinConvergence.ConvergesIff` | src/modules/connectors/connector.service.ts:1068-1139 | Every arrival order ends on the newest record's content exactly when every record with that content is newer than every record with another one. |
| `TwinConvergence.EndsOnNewestIff` | src/modules/connectors/connector.service.ts:1068-1139 | Every arrival order ends on the newest record itself exactly when every other record is older and has another content; so distinct contents and timestamps suffice. |
| `TwinConvergence.EqualContentRefutes` | src/modules/connectors/connector.service.ts:1084-1087 | X at 1, X at 3, Y at 2 ends on Y. |
| `TwinConvergence.ProjectionConverges` | src/modules/connectors/twin-projection.service.ts:240-284 | Whatever the contents, every order in which snapshots are projected one after the other leaves the fields and timestamp of the newest one, if no other shares its timestamp. |
| `TwinConvergence.ProjectionFollowsTwin` | src/modules/connectors/connector.service.ts:1068-1139 | For any arrival order of records, and any delivery order of the events of the accepted ones, processed one after the other, the projection ends on the content and timestamp the twin ends on, if no two records share a timestamp. |
| `TwinConvergence.TimestampsNeverDecrease` | src/modules/connectors/twin-projection.service.ts:267-276 | Processed one after the other, neither the timestamp of the twin nor that of the projection ever decreases. |
| `TwinRuns.InTurnIff` | src/modules/connectors/connector.service.ts:1049-1139 | For every interleaving of reads and writes of any number of calls, on a twin or a work item: the row is all along what the finished calls leave one after the other exactly if no write changes a row that would refuse its record by then. |
| `TwinRuns.TwinsConvergeInTurn` | src/modules/connectors/connector.service.ts:1068-1139 | Every run in which records of a twin are processed without overlap ends on the newest content, if every record with it is newer than every other. |
| `TwinRuns.ProjectionsConvergeInTurn` | src/modules/connectors/twin-projection.service.ts:240-284 | Every run in which snapshots are projected without overlap ends on the newest one, if no other shares its timestamp. |
| `TwinRuns.ProjectionFollowsTwinInTurn` | src/modules/connectors/twin-projection.service.ts:194-284 | Runs of both without overlap leave the work item on the content and timestamp of the twin. |
| `TwinRuns.OverlapDiverges` | src/modules/connectors/twin-projection.service.ts:194-270 | An overlapping run leaves an older snapshot under the newer timestamp, and takes the twin back to the older record. |
| `CorrelationSearch.Resolve` | src/modules/integrations/correlation.service.ts:104-177 | The search fails exactly for a depth outside 1 to 10 or an unknown root; otherwise it returns precisely the nodes within the depth with their shortest distances, and precisely the links that touch a node nearer than the depth. |
| `ServiceImpact.GetServiceImpact` | src/modules/lineage/impact.service.ts:49-101 | The search returns precisely the items within the clamped depth over the allowed link types, each with its shortest distance and a chain of links of that length from the service to it. |
| `ServiceImpact.ChainIsWalk` | src/modules/lineage/impact.service.ts:82-95 | A chain of edges is a walk from a seed to its item, with as many items as edges. |
| `ServiceImpact.JoinedIff` | src/modules/lineage/impact.service.ts:74-80 | Two items are neighbours exactly by a link between them, in either direction, of a requested type, or of any type if none was requested. |
| `AutomationPath.FindAutomationPath` | src/modules/integrations/monitoring.service.ts:618-641 | A returned path is a shortest one of at most three transitions that avoids forbidden states, and none is returned exactly when none exists or the start is the target. |
| `AutomationPath.PathIsAllowed` | src/modules/integrations/monitoring.service.ts:630-634 | Every step of such a path is a transition of the workflow, and no state on it but the target is forbidden. |
| `GraphLayers.ReachIffWalk` | src/modules/integrations/correlation.service.ts:129-162 | A node is within k layers of the roots exactly if a walk of at most k steps leads to it. |
| `GraphLayers.DistanceIsUnique` | src/modules/integrations/correlation.service.ts:129-162 | A node has at most one distance from the roots. |

## Left out

- HTTP, authentication, configuration, secrets, seeding and the relay: plumbing around the protocols.
- Aborted Postgres transactions after a unique violation, isolation levels and sequence gaps of the queue tables.
- Provider effects of a worker whose lease has expired: only durable settlements are in order, not remote writes.
- `next_attempt_at` and the batch limits of the work-order drain: they delay work; the model lets any claimable order be
  loaded at any time, which includes every schedule.
- Re-injection of an ingestion record reads the dead payload and updates the row in one step; names differ by more than
  case.
- The work-order text columns (history, last error, payload corrections) and the pause flag of a twin.
- WatermarkPolling.PollPages: the page contents come from any fetch that reads honestly from an offset; Jira page tokens
  are such offsets.
- Raising limits through `registerPolicy`, the backlog metrics and the stored back-off counters that no admission reads.
- RateGovernor.GovernanceRow.AcquireQuota: one round of the admission loop; the sleep between rounds is a tick.
- Two dispatchers of the same event at once, or a replay during its delivery: `EventDelivery.SkipIsSafeIff` shows what
  they would have to guarantee.
- The alert that a dead letter publishes, and consumers of that alert: it does not change the delivery it reports.
- StateTranslation.PickPaths: the moving cursor is a function on values, so objects shared between the source and the
  picked fields are not modelled (they are only overwritten with values they already have), nor is what assigning
  through `__proto__` does to objects other than the picked fields; reading a member that a record does not own gives
  any value.
- Field mappings are any map of fields; the projected status of a work item and its workflow are not part of the
  convergence results.
- TwinConvergence.ProjectionConverges: fields that fall back to the twin row (key, link, empty titles) are part of the
  snapshot, because they do not change with the order of arrival.
- Locale collation of state names is a parameter; numbers in canonical JSON are kept as their text and `undefined` is not a
  value; JSON text is in UTF-16 code units.
- Rounding of report totals, report truncation, cost and risk reports, comment synchronisation and notifications.
- Creating and publishing mapping versions, and the backfill runner: easier row updates of the same kind.
- The sorting and the summary counters of the graph results.
