# Agent platform: verified protocols

A Dafny model of the parts of the platform whose correctness spans several functions or several services, with proofs
for every run rather than for one call. `dafny verify dfyconfig.toml` checks all of it.

How the model is built:

- **Protocols** are event-driven. `Next` gives the world after one event, `Run` after a list of them, and each actor
  (a business handler, a decision, a worker, a gateway request) is a program counter advanced one await, statement or
  script at a time; a SQL statement or Lua script is one atomic step. Whatever the environment decides (a lost reply, a
  crash, a redelivery, the model's output) is part of the event, so a theorem over `Run` is about all interleavings.
- **Objects the source updates** are classes with the same fields. Their methods are proved equal to the protocol's
  steps run with nothing in between (`RunAlone`), or to a specification function whose properties are then proved.
- Dictionaries are maps, or lists of pairs where insertion order matters. Generated ids are counters. Floats are reals.
  A hash is its input (`sha256` truncated to sixteen hex digits in `acl_hash` included). The random generator is a fixed
  stream of indices that depends on the seed and the length alone.

The files, by component:

| files | what they cover |
|---|---|
| `business.dfy`, `approvals.dfy`, `approval_proofs.dfy`, `mutation_table.dfy`, `leave_ledger.dfy` | two-phase mutation: preview tokens, replay map, human approval, lost replies and rollbacks |
| `jobs.dfy`, `job_proofs.dfy` | the async job: guarded claim, split status writes, retry ladder, dead letters |
| `policy.dfy`, `agent.dfy`, `agent_proofs.dfy`, `agent_answers.dfy`, `agent_graph.dfy`, `job_effects.dfy` | the authorization decision, the killswitch cache, the respond/act loop, what the model is told of its calls, and what a job's runs execute |
| `quota.dfy`, `quota_proofs.dfy` | the token ledger: reserve, reconcile, sweep, expiry |
| `gateway.dfy` | idempotency keys around invoke and submit |
| `text.dfy`, `pii.dfy`, `pii_proofs.dfy`, `pii_redaction.dfy`, `pii_coverage.dfy` | redaction and restoration |
| `statistics.dfy`, `eval_gate.dfy`, `eval_runner.dfy`, `sampler.dfy` | the eval gate and the stratified sample |
| `chunking.dfy`, `breadcrumb.dfy`, `catalog.dfy`, `semantic_cache.dfy` | chunker, incremental ingestion, semantic cache |
| `wrappers.dfy`, `collections.dfy`, `sums.dfy`, `orders.dfy` | shared vocabulary |

Where the code and its own text disagree, the model follows the code:

- A committed approval row reads `awaiting_approval`, `rejected` or `executed`, never `approved` or `failed`: the raise
  after a refused execute leaves the transaction and undoes the `failed` write (`approvals.py:120-124`,
  `api/routes.py:43-57`). So "rejected" does not mean "no effect"; `RejectedEffectExactly` says when it had one.
- The comment at `approvals.py:82-85` promises a quiet replay of an identical decision. A loser whose snapshot predates
  the winner gets 409 instead (`LoserAnswer`).
- The gateway stores 429 and 5xx replies under the key, so the retry they invite is answered with an error and never
  re-attempted (`FailureIsNotRetried`).
- A quota counter can go negative (`CounterCanGoNegative`), exactly when a window ends over an open reservation
  (`NonNegativeExactly`).
- A job whose worker is lost between claim and first write is never called again (`StrandedExactly`, `WedgedForever`),
  and `succeeded` can be overwritten (`SucceededOverwritten`, `SucceededIsFinalExactly`).
- A quota counter left without an expiry never gets one back from the branch that rejects, so an overrun reconciled after
  a window can shut a pool for good (`RejectsForeverExactly`, `PoolCanJam`).
- An eval run asks an item k times (three in the full and nightly tiers) and measures the first answer only: a passing
  verdict says nothing of what the others executed, were offered or leaked (`AnyLaterAnswerPasses`,
  `EveryAnswerVouchedForExactly`).
- A raised agent run leaves no record of what it executed, and a job retried after a lost answer executes again under
  fresh keys (`EveryExecuteIsOnRecordExactly`, `JobExecutesReachTheBound`).
- A result that loses to an overlapping one can stay readable where it hangs over (`EveryReportIsMaskedExactly`).
- The tool loop has no bound of its own: `act` runs calls the model makes when offered none (`StubbornModelsNeverFinish`);
  what ends such a run is the graph library's recursion limit.
- A heading that skips a level files later text under the wrong breadcrumb (`SectionsFollowTheOutline`,
  `SkippedLevelMisfiles`).
- An ingestion error row names a run row inserted only later, so the first failing document ends the run; what a run
  stopped there or in its last transaction had already changed is never sent to the cache (`AbortedChangesAreNeverReported`).
- Group ids that contain a comma can share a cache namespace (`AclHashIsCanonical` says exactly when, `CommaCollides`).

## Model

| member | source | states |
|---|---|---|
| BusinessApi.PreviewTokenStore.Issue | services/mock-business-api/src/mock_business_api/preview_tokens.py:34-46 | a fresh token is stored unconsumed, bound to action, parameters, tenant and expiry; every other token stays |
| BusinessApi.PreviewTokenStore.Consume | services/mock-business-api/src/mock_business_api/preview_tokens.py:48-68 | a token is taken at most once, only by its tenant for its action and before it expires; each refusal keeps its own status and changes nothing |
| BusinessApi.IdempotencyStore.Put | services/mock-business-api/src/mock_business_api/idempotency.py:26-28 | the reply is stored under tenant and key; other replies stay |
| BusinessApi.BusinessState.DeductLeave | services/mock-business-api/src/mock_business_api/state.py:48-53 | the balance falls by the days, an unknown employee starting from zero |
| BusinessApi.BusinessState.RecordLeaveRequest | services/mock-business-api/src/mock_business_api/state.py:55-57 | the record is appended |
| BusinessApi.BusinessState.Reset | services/mock-business-api/src/mock_business_api/state.py:44-46 | balances and requests return to the seed |
| BusinessApi.Service.Preview | services/mock-business-api/src/mock_business_api/api/hr.py:74-123 | a token is issued whatever the validation says; every payroll adjustment needs approval and a leave exactly above five days; a leave is warned about exactly when it exceeds the balance, zero where none is kept |
| BusinessApi.Service.Execute | services/mock-business-api/src/mock_business_api/api/hr.py:127-168 | replay, then consume, then effect, then reply: the same final store and answer as the handler's atomic steps run with nothing in between, for both actions |
| BusinessApi.ExecuteAlone | services/mock-business-api/src/mock_business_api/api/hr.py:127-168 | one execute in one piece, from what it finds: replay, each refusal with its status and nothing changed, a token spent for nothing where an approval is missing, else one effect and its stored reply |
| ApprovalProofs.RunKeepsInv | services/harness/src/harness/approvals.py:42-138 | every interleaving of previews, executes, decisions, lost replies, timeouts, rollbacks and resets keeps the protocol invariant |
| ApprovalProofs.OneEffectPerToken | services/mock-business-api/src/mock_business_api/preview_tokens.py:48-68 | in every run at most one execute ever makes an effect on one token, however many decisions and retries raced |
| ApprovalProofs.ExecutedRowHasItsEffect | services/harness/src/harness/approvals.py:109-138 | a row that reads executed carries the reference of exactly the effect its token made; no committed approval row reads approved or failed |
| ApprovalProofs.RepliesAgree | services/mock-business-api/src/mock_business_api/api/hr.py:134-168 | any two successful replies under one idempotency key name the same business reference |
| ApprovalProofs.ApprovedBySomeoneElse | services/harness/src/harness/approvals.py:60-71 | over every run: a payroll adjustment, or a leave of more than five days, that took effect was sent by an approve of somebody other than the actor who held the permission its tool asks for |
| ApprovalProofs.OnlyRiskyRequestsWait | services/harness/src/harness/tools/executor.py:277-313 | and only those ever wait for an approver: every request filed is for payroll or for more than five days |
| ApprovalProofs.PreviewDecides | services/harness/src/harness/tools/executor.py:254-328 | what one preview leads to: a token always; a filed request for payroll and above five days, an execute at once otherwise, neither when it was warned about or its answer was lost |
| ApprovalProofs.DecisionIsGated | services/harness/src/harness/approvals.py:60-90 | an approver without the tool's permission is refused as such, else one who asked himself, and exactly the others claim a waiting row; none of it writes anything else |
| ApprovalProofs.RejectedEffectWasLost | services/harness/src/harness/api/routes.py:43-57 | a rejected row whose token made an effect has an approve that sent that very execute, lost its answer and was rolled back |
| ApprovalProofs.RejectedEffectExactly | services/harness/src/harness/api/routes.py:43-57 | a rejected request had an effect if and only if an approve of it was lost before its answer after the execute it sent had consumed the token and gone past its writes |
| ApprovalProofs.RejectedAfterEffect | services/harness/src/harness/api/routes.py:43-57 | a concrete run ends with a rejected row whose effect happened |
| ApprovalProofs.LoserAnswer | services/harness/src/harness/approvals.py:81-97 | a decision that loses the claim replays quietly exactly when its snapshot is the current row and agrees with it; otherwise 409, a stale snapshot included |
| ApprovalProofs.SettledRowIsFinal | services/harness/src/harness/persistence/repository.py:267-303 | no event changes a row that has left awaiting approval |
| ApprovalProofs.AnswersAreTruthful | services/harness/src/harness/approvals.py:92-138 | whatever a decision answered with success is what its row reads ever after |
| MutationTable.Table.GetByApprovalId | services/harness/src/harness/persistence/repository.py:251-264 | the row of that approval if it is the tenant's |
| MutationTable.Table.TryClaim | services/harness/src/harness/persistence/repository.py:267-303 | the claim wins exactly on a row of the tenant still awaiting approval; of the columns modelled it changes the status alone |
| MutationTable.Table.UpdateExecutionResult | services/harness/src/harness/persistence/repository.py:306-326 | of the columns modelled, status and reference of that one row are set |
| MutationTable.Desk.DecideApproval | services/harness/src/harness/approvals.py:42-138 | the whole answer, the business store and the row by case: missing, refused, lost claim, reject, lost request, lost reply, refused execute, executed |
| MutationTable.Desk.ApprovalDecision | services/harness/src/harness/api/routes.py:43-57 | an error leaves the table as it was while the business effect stands; success commits exactly the answered row |
| MutationTable.RetryIsSilent | services/mock-business-api/src/mock_business_api/api/hr.py:134-138 | repeating a successful execute at any later time answers the same and changes nothing |
| LeaveLedger.BooksBalanceUnlessResetMidway | services/mock-business-api/src/mock_business_api/state.py:44-57 | balance = seed - recorded days - days deducted but not yet recorded, if and only if no reset fell between a deduct and its record for that employee |
| LeaveLedger.RequestsArePreviewed | services/mock-business-api/src/mock_business_api/api/hr.py:140-159 | every recorded request is the parameters of one consumed token; above five days it carries the approval filed for that token |
| LeaveLedger.RequestsUseDistinctTokens | services/mock-business-api/src/mock_business_api/api/hr.py:140-159 | two recorded requests never come from one token |
| Jobs.JobRow.TryClaim | services/async-worker/src/async_worker/persistence/jobs.py:15-29 | the claim wins exactly from queued or failed |
| Jobs.Consumer.ScheduleRetry | services/async-worker/src/async_worker/consumer.py:33-51 | the message is held with one more attempt, for the delay its attempts select |
| Jobs.Consumer.ProcessJob | services/async-worker/src/async_worker/processor.py:76-146 | for every outcome of the harness call, an unexpected exception included: what was claimed, called, written and returned |
| Jobs.Consumer.Handle | services/async-worker/src/async_worker/consumer.py:93-126 | retry, dead-letter and exception routing end where the worker's own steps do, for every outcome of the call |
| JobProofs.CallsAreBounded | services/async-worker/src/async_worker/processor.py:100-131 | harness calls never exceed (MAX_ATTEMPTS + 1) x (1 + redeliveries), in every interleaving with exceptions, crashes and redelivery beside a live worker |
| JobProofs.NextSpends | services/async-worker/src/async_worker/consumer.py:33-57 | calls made plus calls in-flight messages may still make never grow but by a redelivery, and each event spends a step |
| JobProofs.MessagesAreConserved | services/async-worker/src/async_worker/consumer.py:33-126 | per count of attempts: a message is added only by a redelivery beside its worker or a scheduled retry, one attempt further on, and taken away only by its acknowledgement; a dead letter is published by exactly the workers that wrote dead-lettered or met an exception |
| JobProofs.DeadLettersArrive | services/async-worker/src/async_worker/consumer.py:93-126 | over runs without crashes: a job that reads dead-lettered has a message in the dead-letter queue, or a worker about to put it there |
| JobProofs.EveryJobDrains | services/async-worker/src/async_worker/consumer.py:93-126 | a run with r redeliveries has at most 28 + 29r events and can only stop with nothing in flight |
| JobProofs.OneClaimant | services/async-worker/src/async_worker/persistence/jobs.py:15-29 | at most one worker is ever between its claim and its first status write |
| JobProofs.DelaysClimbTheLadder | packages/contracts/src/contracts/jobs.py:40-42 | without redelivery at most four calls are made and the delays are a prefix of 10, 60, 300 |
| JobProofs.LosingTheClaimantWedges | services/async-worker/src/async_worker/persistence/jobs.py:25-25 | however the worker between claim and first write is lost, by crash or exception, nobody else can claim the job |
| JobProofs.StrandedExactly | services/async-worker/src/async_worker/processor.py:84-146 | a job gets stuck in running exactly when its claimant is lost, and stranded queued or failed exactly when an exception takes the last worker or message that carried it |
| JobProofs.StrandedQueued | services/async-worker/src/async_worker/consumer.py:93-126 | a concrete run with an exception before the claim leaves the job queued with nothing in flight |
| JobProofs.StrandedFailed | services/async-worker/src/async_worker/consumer.py:93-126 | and one with an exception between the two writes of a failure leaves it failed |
| JobProofs.DrainedJobsFinish | services/async-worker/src/async_worker/consumer.py:93-126 | a drained job has succeeded or is dead-lettered unless it is stranded; without crashes and unexpected exceptions it always has, redeliveries or not |
| JobProofs.WedgedForever | services/async-worker/src/async_worker/persistence/jobs.py:15-29 | such a job is never called again, whatever is redelivered |
| JobProofs.SucceededOverwrittenExactly | services/async-worker/src/async_worker/processor.py:117-124 | an event takes a job out of succeeded if and only if it is the dead-letter write of a worker that wrote failed and has no retry left |
| JobProofs.SucceededIsFinalExactly | services/async-worker/src/async_worker/processor.py:106-124 | succeeded lasts through every continuation if and only if no worker holds such a write |
| JobProofs.SucceededIsFinalWithoutRedelivery | services/async-worker/src/async_worker/processor.py:137-146 | without redelivery no event takes a job out of succeeded |
| JobProofs.SucceededOverwritten | services/async-worker/src/async_worker/processor.py:106-124 | with one redelivery a concrete run overwrites succeeded with dead-lettered |
| Policy.EachCandidateOnce | services/harness/src/harness/authz/policy_resolver.py:98-138 | every candidate goes, in profile order, to exactly one of allowed and denied |
| Policy.AllowedIffEntitled | services/harness/src/harness/authz/policy_resolver.py:80-138 | a tool is allowed exactly when one of its places in the profile is permitted, mutation-allowed, not switched off and has a scope identity |
| Policy.DenialsAreExplained | services/harness/src/harness/authz/policy_resolver.py:98-130 | every denial names a candidate and the first check it failed, with exactly the permissions it lacks |
| Policy.Monotone | services/harness/src/harness/authz/policy_resolver.py:98-121 | more permissions, mutations allowed or fewer switches thrown never lose a tool |
| Policy.ConstraintsAreResolved | services/harness/src/harness/authz/policy_resolver.py:36-65 | exactly the allowed tools with a scope parameter have a constraint, never an empty one, and it passes exactly the calls that name the caller's own id for a self-scoped tool, that or a listed team member for a team-scoped one, anybody for the others |
| Policy.SelfDefaultPasses | services/harness/src/harness/authz/scope_check.py:17-42 | a left-out scope parameter passes an allowed tool's check exactly when the tool is unrestricted or the caller has an id |
| Policy.ExplicitValueIsNotReplaced | services/harness/src/harness/authz/scope_check.py:17-42 | a value given outside the scope is refused, never replaced |
| Policy.KillswitchChecker.IsDisabled | services/harness/src/harness/authz/killswitch.py:23-31 | the answer is what Redis said at some instant less than the TTL ago; a fresh entry is returned unchanged, a stale one replaced |
| Policy.Resolver.Resolve | services/harness/src/harness/authz/policy_resolver.py:80-138 | the loop computes the decision from switch readings each taken within the TTL of its check; an unknown agent gets nothing |
| AgentProofs.EffectsAreLawful | services/harness/src/harness/tools/executor.py:86-147 | for every sequence of model replies each call names an allowed tool with its scope parameter in the resolved ids, and an execute directly follows the clean, approval-free preview that issued its token |
| AgentProofs.EveryCallIsRightful | services/harness/src/harness/tools/executor.py:86-147 | with the decision of authorize: each call's tool is in profile, deployment and entitlement; a self-scoped call names the caller's own non-empty id, a team-scoped one that or a listed team member; and mutations were allowed |
| AgentProofs.CallGoesOutExactly | services/harness/src/harness/tools/executor.py:86-147 | a call reaches a service if and only if its tool is in the profile and the caller entitled to it, it names somebody in that scope, and its arguments are valid; it then goes out with those arguments |
| AgentProofs.MessagesAreATranscript | services/harness/src/harness/graph/build.py:266-395 | each assistant tool request is followed at once by results with the same ids in the same order, and nothing else answers |
| AgentProofs.ReportsAreTruthful | services/harness/src/harness/graph/build.py:350-395 | reported previews and executions are the log's, in order; executions are a sub-multiset of previews; only allowed tools were offered; every execute is on record under its own key |
| AgentAnswers.ToolAnswersAreTruthful | services/harness/src/harness/tools/executor.py:176-380 | over every run: Executed(ref) is what the model is told exactly when that call's execute came back with ref, AwaitingApproval exactly when its clean preview asked for approval, Answer exactly when its search or query came back, Failure otherwise; the record is ok exactly when it is not Failure; the requests on record are those of the clean previews |
| AgentProofs.AwaitingWasNotExecuted | services/harness/src/harness/tools/executor.py:277-313 | the key of a request filed for approval is in no execute of the run |
| JobEffects.EveryExecuteIsOnRecordExactly | services/harness/src/harness/graph/runner.py:58-175 | for a run that ended: every execute it sent is on the committed record if and only if the graph returned and the audit transaction held, or it sent none |
| JobEffects.ExecutesHaveTheirOwnKeys | services/harness/src/harness/tools/executor.py:274-325 | no two executes of a run, raised or not, share an idempotency key |
| JobEffects.JobExecutesAreBounded | services/async-worker/src/async_worker/processor.py:100-131 | whatever is lost or redelivered, a job whose model asks at most c calls at a time and answers plainly once offered no tools sends at most 8c executes, and 8c more for each redelivery |
| JobEffects.JobExecutesReachTheBound | services/async-worker/src/async_worker/processor.py:100-131 | for every c a concrete job without redelivery ends succeeded having sent 8c executes: three of its answers were lost |
| AgentProofs.EndsAtFirstPlainReply | services/harness/src/harness/graph/build.py:464-481 | unless a service raises, the run ends at the first reply without tool calls, after exactly that many acts |
| AgentProofs.ToolsAreOfferedTwice | services/harness/src/harness/graph/build.py:266-345 | tools are offered in the first two turns and no more, exactly the allowed ones of the deployment; there is an answer exactly at the end, the last reply |
| AgentProofs.CooperativeModelsFinish | services/harness/src/harness/graph/build.py:266-280 | a model that answers in text once offered no tools is done after at most 2 acts and 3 responds |
| AgentProofs.StubbornModelsNeverFinish | services/harness/src/harness/graph/build.py:350-395 | the loop has no bound of its own: act runs every round of a model that always asks for tools |
| AgentGraph.AgentRun.RespondNode | services/harness/src/harness/graph/build.py:266-345 | the new run state of respond, and which tools the model is offered |
| AgentGraph.AgentRun.CallTool | services/harness/src/harness/tools/executor.py:71-147 | checks, in-place scope default, validation and dispatch give the outcome and append exactly its effects |
| AgentGraph.AgentRun.MutateTool | services/harness/src/harness/tools/executor.py:243-380 | preview, approval branch, execute: outcome and effects by case |
| AgentGraph.AgentRun.ActNode | services/harness/src/harness/graph/build.py:350-395 | the loop over pending calls gives the act step's state; an exception loses the state update but not the effects |
| QuotaProofs.CounterIsAccountedFor | services/gateway/src/gateway/quota.py:39-91 | over all interleavings the counter is open estimates plus reconciled actuals plus estimates lost to expiry, less what windows wiped, and at most the limit plus the overruns reconciled in its own window |
| QuotaProofs.NonNegativeExactly | services/gateway/src/gateway/quota.py:58-91 | all along a run the counter stays non-negative, however what is open gets reconciled, if and only if no window ends while a reservation with an estimate is open |
| QuotaProofs.FirstWindowNonNegative | services/gateway/src/gateway/quota.py:39-71 | before a window has wiped anything the counter is never negative |
| QuotaProofs.CounterCanGoNegative | services/gateway/src/gateway/quota.py:61-71 | a concrete run across a window leaves a negative counter with no expiry |
| QuotaProofs.RejectsForeverExactly | services/gateway/src/gateway/quota.py:39-71 | for requests that fit an empty window: a pool accepts none of them ever again if and only if its counter has no expiry and would be full even with every open estimate given back |
| QuotaProofs.PoolCanJam | services/gateway/src/gateway/quota.py:39-71 | in every pool of at least ten tokens and one hour a concrete run shuts it to all requests for good |
| QuotaProofs.SettledOnce | services/async-worker/src/async_worker/clients/quota.py:13-34 | over any run a reservation once reconciled, swept or lost never changes again, whichever service comes second |
| QuotaProofs.NothingLostExactly | services/gateway/src/gateway/quota.py:73-91 | nothing is lost to expiry if and only if each reservation whose TTL the clock reaches was reconciled or swept past its deadline before |
| QuotaProofs.SweepLoopLosesNothing | services/gateway/src/gateway/config.py:36-36 | with a pass every 30 seconds lasting at most 14.5, a full pass falls into the 59 seconds after every deadline and nothing is ever lost |
| Quota.PassSettles | services/gateway/src/gateway/quota.py:170-188 | a full pass leaves no scanned reservation open past its deadline |
| Quota.SweptAreCounted | services/gateway/src/gateway/quota.py:73-91 | a pass counts each such reservation once |
| Quota.QuotaManager.Reserve | services/gateway/src/gateway/quota.py:125-162 | accepted exactly when the estimate fits under the limit; then the open reservation with its deadline and TTL, the raised counter and its window; tokens after, limit and the seconds the window has left |
| Quota.QuotaManager.Reconcile | services/gateway/src/gateway/quota.py:164-168 | an open reservation is settled at its actual tokens and the counter moves by the difference, its expiry as it was; any other changes nothing |
| Quota.QuotaManager.SweepOnce | services/gateway/src/gateway/quota.py:170-188 | the cursor loop leaves the ledger of a pass over every batch, and its count is the number of listed reservations that were open and past their deadline, however often the scan lists one |
| Gateway.OneEffectPerKey | services/gateway/src/gateway/api/routes.py:67-204 | per tenant and key at most one reservation, and at most one of a harness run and a job row with its one message, over all concurrent requests |
| Gateway.StoredSuccessIsBacked | services/gateway/src/gateway/api/routes.py:232-350 | a stored 202 has its job row and its message, a stored 200 its run |
| Gateway.StoredReplyIsFinal | services/gateway/src/gateway/persistence/idempotency.py:58-78 | a stored reply is never overwritten and its key never causes anything again |
| Gateway.ReplayMatchesStore | services/gateway/src/gateway/api/routes.py:67-104 | a replay answers, for the same request hash, exactly what is stored under the key |
| Gateway.DuplicatesAreTold | services/gateway/src/gateway/api/routes.py:74-92 | in any run a duplicate changes nothing and learns whether its body differs, whether the first is still in progress (409), or what that was answered |
| Gateway.LateRequestsAreAnsweredFromTheRow | services/gateway/src/gateway/api/routes.py:67-104 | once a reply is stored its key causes nothing more in any continuation, and whoever had not begun is answered from the row; it is replayed exactly to the same request at an endpoint that can read it |
| Gateway.FailureIsNotRetried | services/gateway/src/gateway/api/routes.py:173-192 | in every continuation a retry of a key with a stored failure is answered with an error and no run, job or message comes of it |
| Gateway.DeathAbandons | services/gateway/src/gateway/persistence/idempotency.py:25-39 | a request that dies after its insert abandons its key |
| Gateway.AbandonedForever | services/gateway/src/gateway/persistence/idempotency.py:25-39 | an abandoned key causes nothing and stays without a reply in every continuation |
| Gateway.AbandonedExactly | services/gateway/src/gateway/api/routes.py:67-204 | a key waiting for its reply gets none in any continuation if and only if it is abandoned; otherwise its worker, uninterrupted, stores one |
| Gateway.KeyTable.TryBegin | services/gateway/src/gateway/persistence/idempotency.py:25-39 | the insert wins exactly when the key is absent |
| Gateway.KeyTable.Complete | services/gateway/src/gateway/persistence/idempotency.py:58-78 | the reply of that one row is set |
| Gateway.Endpoints.Invoke | services/gateway/src/gateway/api/routes.py:49-204 | uninterrupted: a first request reserves, runs and stores exactly the reply it earned, a duplicate is told its case and changes nothing |
| Gateway.Endpoints.SubmitJob | services/gateway/src/gateway/api/routes.py:210-350 | the same with a job row and its message |
| Pii.KeptSpans | services/harness/src/harness/guardrails/pii.py:124-135 | kept spans are disjoint and in text order, come from the results, and every dropped one overlaps a kept one of at least its score |
| Pii.KeptExactly | services/harness/src/harness/guardrails/pii.py:124-135 | a result is kept if and only if no kept one that shares a character with it scores higher, or as high and was reported earlier |
| PiiCoverage.MaskedExactly | services/harness/src/harness/guardrails/pii.py:124-170 | what the redacted text hides: exactly the characters of the results that score at least 0.6 and share none with a masked one that scores higher, or as high and was reported earlier |
| PiiCoverage.EveryReportIsMaskedExactly | services/harness/src/harness/guardrails/pii.py:124-170 | no character of a result scoring at least 0.6 is copied into the redacted text if and only if every such result begins inside a kept span and kept spans run on without a gap to its end |
| PiiCoverage.OverhangIsShown | services/harness/src/harness/guardrails/pii.py:124-135 | a concrete pair of overlapping results leaves the end of the weaker one readable |
| PiiProofs.RestoreUndoesRedact | services/harness/src/harness/guardrails/pii.py:138-180 | restoring a redacted text gives the text back if it contains no generated placeholder, for every list of in-range spans |
| PiiProofs.RestoreUndoesRedactExactly | services/harness/src/harness/guardrails/pii.py:138-180 | for bracket-free matches the round trip holds if and only if no placeholder occurs in the text clear of the spans still masked when it is restored |
| PiiProofs.NamesAreTokens | services/harness/src/harness/guardrails/pii.py:155-160 | placeholders are pairwise different bracketed tokens |
| PiiProofs.NamesAreNumbered | services/harness/src/harness/guardrails/pii.py:155-160 | a masked result reads [KIND_n], its kind without ID_, numbered from the right among those of its kind |
| PiiRedaction.NonOverlappingResults | services/harness/src/harness/guardrails/pii.py:124-135 | the greedy loop keeps the specified spans |
| PiiRedaction.RedactInput | services/harness/src/harness/guardrails/pii.py:138-170 | the right-to-left loop gives the masked text and its mapping, counters included |
| PiiRedaction.RestoreInput | services/harness/src/harness/guardrails/pii.py:173-180 | replacement in insertion order |
| PiiRedaction.TypedPlaceholder | services/harness/src/harness/guardrails/pii.py:173-180 | a concrete text holding a placeholder is not restored |
| Statistics.SortMonotone | services/eval/src/eval_service/gate/statistics.py:21-25 | raising values one by one raises every order statistic |
| Statistics.MedianMonotone | services/eval/src/eval_service/gate/statistics.py:21-25 | and so the median |
| Statistics.MedianIsMiddle | services/eval/src/eval_service/gate/statistics.py:21-25 | for any ordering of the values the median is halfway between the middle ones |
| Statistics.PercentileIsOrderStatistic | services/eval/src/eval_service/gate/statistics.py:51-52 | at a whole place a percentile is that order statistic |
| Statistics.PercentileIsInterpolated | services/eval/src/eval_service/gate/statistics.py:51-52 | between two places it lies on the straight line between their order statistics |
| Statistics.PercentileMonotone | services/eval/src/eval_service/gate/statistics.py:51-52 | and every interpolated percentile |
| Statistics.BootstrapCi | services/eval/src/eval_service/gate/statistics.py:35-53 | the array-filling loop computes the interval of the resample means; no deltas give (0, 0) |
| Statistics.IntervalMonotone | services/eval/src/eval_service/gate/statistics.py:35-53 | with one seed, raising deltas raises both ends of the interval |
| Statistics.IntervalBetween | services/eval/src/eval_service/gate/statistics.py:35-53 | for any draws both ends lie between the least and greatest delta |
| Statistics.IntervalOrdered | services/eval/src/eval_service/gate/statistics.py:50-53 | the lower end never exceeds the upper |
| Statistics.IntervalEnds | services/eval/src/eval_service/gate/statistics.py:45-53 | in any ordering of the 2000 resample means the ends lie a fortieth short of the 51st and a fortieth past the 1950th |
| EvalGate.GateDeterministic | services/eval/src/eval_service/gate/verdict.py:74-100 | one verdict per metric, against its threshold, overridable unless zero tolerance |
| EvalGate.GateRagas | services/eval/src/eval_service/gate/verdict.py:103-163 | floor, missing baseline and regression, metric by metric; unscored metrics are skipped |
| EvalGate.ComputeVerdict | services/eval/src/eval_service/gate/verdict.py:166-175 | both gates together |
| EvalGate.DeltasArePaired | services/eval/src/eval_service/gate/statistics.py:28-32 | the deltas are candidate minus baseline, in order, for exactly the items scored in both runs |
| EvalGate.VerdictMonotone | services/eval/src/eval_service/gate/verdict.py:103-175 | improving any aggregate or median over the same items, baseline and seed never fails a passing gate |
| EvalGate.UniformDropRegresses | services/eval/src/eval_service/gate/verdict.py:144-146 | if every item scored in both runs lies more than 0.02 below its baseline the check fails, whatever is drawn |
| EvalGate.SmallDropsNeverRegress | services/eval/src/eval_service/gate/verdict.py:144-146 | if none of them does it never fails |
| EvalGate.RegressedExactly | services/eval/src/eval_service/gate/verdict.py:144-146 | in between it fails exactly when the point a fortieth past the 1950th of the ordered resample means is below -0.02 |
| EvalGate.VerdictPassesExactly | services/eval/src/eval_service/gate/verdict.py:25-175 | a run passes if and only if each deterministic score reaches its mark, nothing forbidden was counted, and each judged metric that was scored keeps its median above the floor and does not regress |
| EvalGate.FailuresAreClassed | services/eval/src/eval_service/gate/verdict.py:36-162 | which failures may be overridden: all deterministic ones but mutation safety and the two leaks, and a regression but not a median below the floor |
| EvalRunner.CapabilityLeak | services/eval/src/eval_service/metrics/deterministic.py:58-69 | zero exactly when no forbidden tool was offered and no forbidden term occurs |
| EvalRunner.RatePasses | services/eval/src/eval_service/metrics/deterministic.py:21-55 | the tool-selection gate passes exactly when 95 in 100 items called every tool expected and none forbidden, the refusal gate exactly when 9 in 10 were refused just as they should; a failed call counts against |
| EvalRunner.CitationScore | services/eval/src/eval_service/metrics/deterministic.py:38-51 | the share of the citations whose chunk was both retrieved and in the prompt; with none, zero where one was expected and left out elsewhere |
| EvalRunner.LeaksAreCounted | services/eval/src/eval_service/metrics/deterministic.py:58-75 | each forbidden term that occurs and each forbidden tool offered counts once, each finding of personal data not allowed counts |
| EvalRunner.AggregateDeterministic | services/eval/src/eval_service/runner.py:131-149 | every metric aggregated, an errored item a zero in a mean and absent from a count |
| EvalRunner.RunItem | services/eval/src/eval_service/runner.py:56-128 | the item is asked until a call fails; the first answer alone is measured, every answer the judge scored adds a sample, a failed item has neither |
| EvalRunner.SamplesInOrder | services/eval/src/eval_service/runner.py:104-126 | the samples of a metric are the scores of exactly the answers judged on it, in their order |
| EvalRunner.MediansAre | services/eval/src/eval_service/runner.py:152-162 | each of the four judged metrics holds the median of its samples for exactly the items that have any, and is left out if none has |
| EvalRunner.MutationSafetyPasses | services/eval/src/eval_service/runner.py:90-94 | the gate passes exactly when no call of any item failed and each item's first answer executed only what it may |
| EvalRunner.CountPasses | services/eval/src/eval_service/runner.py:99-102 | a zero-tolerance count passes exactly when the first answer of every answered item has none |
| EvalRunner.PassingMeansSafe | services/eval/src/eval_service/runner.py:90-149 | a passing verdict implies of every item: all its calls were answered, and the first answer kept to its mutations, was offered no forbidden tool and holds no forbidden term or personal data |
| EvalRunner.AnyLaterAnswerPasses | services/eval/src/eval_service/runner.py:77-102 | a passing run goes on passing when any answer after an item's first is replaced by any other whatsoever |
| EvalRunner.EveryAnswerVouchedForExactly | services/eval/src/eval_service/runner.py:77-102 | passing guarantees that every answer is safe, over all runs that ask each item k times, if and only if k is at most one |
| EvalRunner.TiersVouchedFor | services/eval/src/eval_service/runner.py:34-34 | of the tiers' own settings passing vouches for every answer in all but full and nightly |
| EvalRunner.ImprovedRunStillPasses | services/eval/src/eval_service/runner.py:131-162 | from raw scores and judge samples up: improving any of them never turns a passing run into a failing one |
| Sampler.StratifiedSample | services/eval/src/eval_service/datasets/sampler.py:13-69 | the loops compute the specified sample |
| Sampler.SampleGuarantees | services/eval/src/eval_service/datasets/sampler.py:44-69 | distinct items in id order, at least min(quota, available) of every tag, and exactly max(claims, min(total, items)) of them |
| Sampler.SampleIsTheFirstOfEach | services/eval/src/eval_service/datasets/sampler.py:44-69 | without the loops: tag after tag in alphabetical order takes the first of its items not yet taken, up to the quota, and the first of the rest fill up to the total |
| Sampler.SampleIgnoresOrder | services/eval/src/eval_service/datasets/sampler.py:44-69 | the same for every permutation of items with distinct ids |
| Chunking.SplitIntoBlocks | services/ingestion/src/ingestion/chunking.py:42-66 | the line loop computes the blocks |
| Chunking.LinesOf | services/ingestion/src/ingestion/chunking.py:56-56 | a text is its first line, a break and the lines of the rest; a carriage return with a line feed is one break |
| Chunking.HeadingExactly | services/ingestion/src/ingestion/chunking.py:12-12 | a heading of level n is n hashes, one to six, white space and the title |
| Chunking.PlainDocument | services/ingestion/src/ingestion/chunking.py:50-66 | a document without headings is one block without a section, or none if it is blank |
| Chunking.BlocksKeepEveryWord | services/ingestion/src/ingestion/chunking.py:42-66 | no block is blank or padded, and together they hold exactly the non-space text of the non-header lines, in order |
| Breadcrumb.BreadcrumbIsRight | services/ingestion/src/ingestion/chunking.py:42-62 | at any place the section stack, and the path a block is filed under, are those of the open headings if and only if the stack is as deep as the headings open there are many, which depends on the levels alone |
| Breadcrumb.DocumentIsInStep | services/ingestion/src/ingestion/chunking.py:56-65 | over a document's lines: the scan's stack is right all through if and only if every heading closes rightly |
| Breadcrumb.SectionsFollowTheOutline | services/ingestion/src/ingestion/chunking.py:42-66 | every block of a document is filed under the headings open at its place if and only if that depth condition holds of the headings before each block |
| Breadcrumb.ClosingFilesRightly | services/ingestion/src/ingestion/chunking.py:62-62 | it holds everywhere in a document whose headings all close rightly |
| Breadcrumb.GradedClosesRightly | services/ingestion/src/ingestion/chunking.py:62-62 | a document that never skips a level on the way down is such a document |
| Breadcrumb.SkippedLevelMisfiles | services/ingestion/src/ingestion/chunking.py:62-62 | a three-line document that skips a level has its text filed under the wrong headings |
| Chunking.ChunkMarkdown | services/ingestion/src/ingestion/chunking.py:21-39 | the packing loop computes the chunks |
| Chunking.ChunksAreGroups | services/ingestion/src/ingestion/chunking.py:21-39 | chunks are consecutive non-empty groups of the blocks, nothing lost, repeated or moved; each starts with the last overlap characters of its predecessor, from the first that is not white space, is filed under its last block, and could not have taken the next block |
| Chunking.FinalStripIsIdle | services/ingestion/src/ingestion/chunking.py:37-38 | the final strip removes nothing |
| Chunking.ChunksAreBounded | services/ingestion/src/ingestion/chunking.py:28-36 | no chunk exceeds max(target, overlap + 2 + longest block) |
| Catalog.Database.IngestOneDocument | services/ingestion/src/ingestion/pipeline.py:30-76 | an unchanged body is skipped; otherwise the row is upserted under its old id and its chunks replaced |
| Catalog.Database.TombstoneMissing | services/ingestion/src/ingestion/persistence/repository.py:119-145 | exactly the tenant's live documents the source no longer has are tombstoned, lose their chunks and are reported |
| Catalog.Database.Run | services/ingestion/src/ingestion/pipeline.py:79-143 | the run's tables and report, or where a failing document or a failure of the last transaction stops it |
| Catalog.RunKeepsWf | services/ingestion/src/ingestion/pipeline.py:30-76 | ids stay unique, live documents' chunks are the chunker's output and tombstoned ones have none, after every run |
| Catalog.StoredChunksAreBounded | services/ingestion/src/ingestion/pipeline.py:30-76 | what is stored of a live document after any run: its blocks packed to 2048 characters with an overlap of 256, so no chunk is longer unless a block exceeds 1790, and then by 258 at most |
| Catalog.RunSyncs | services/ingestion/src/ingestion/pipeline.py:79-117 | after an error-free run the tenant's live documents map exactly to the source; no other tenant's row moves |
| Catalog.RunReportsExactly | services/ingestion/src/ingestion/pipeline.py:91-134 | changed and tombstoned ids are exactly the documents whose live content differs |
| Catalog.SecondRunIsIdle | services/ingestion/src/ingestion/pipeline.py:38-40 | a second run over the same source changes and reports nothing |
| Catalog.GroupsFollowTheBody | services/ingestion/src/ingestion/connectors/filesystem.py:53-53 | a document's groups follow the source exactly when its body changed or they already agreed |
| Catalog.AbortedChangesAreNeverReported | services/ingestion/src/ingestion/pipeline.py:94-127 | documents changed by a run that a failure stopped, of a document or of the last transaction, are reported neither by it nor by the next run |
| Catalog.ReportIsComplete | services/ingestion/src/ingestion/pipeline.py:91-134 | a run reports everything it changed if and only if none of its transactions fails or no document committed before that had changed |
| SemanticCache.AclHashIsCanonical | services/harness/src/harness/cache/namespace.py:17-19 | two lists of group names share a namespace exactly when their sorted names, taken apart at the commas, come to the same list, or one comes to none and the other to a single empty name |
| SemanticCache.PlainGroupsShareExactly | services/harness/src/harness/cache/namespace.py:17-19 | without commas in names: exactly when they are the same multiset, or one is empty and the other a single empty name |
| SemanticCache.SameGroupsShare | services/harness/src/harness/cache/namespace.py:17-19 | the same groups share a namespace whatever their names and order |
| SemanticCache.CommaCollides | services/harness/src/harness/cache/namespace.py:17-19 | with a comma in a name different groups can share one |
| SemanticCache.SemanticCacheStore.Write | services/harness/src/harness/cache/store.py:128-155 | one entry is added under a fresh key |
| SemanticCache.SemanticCacheStore.Lookup | services/harness/src/harness/cache/store.py:92-126 | a hit is an entry of the asker's own namespace within the threshold; a miss means none or too far |
| SemanticCache.SemanticCacheStore.InvalidateByDocuments | services/harness/src/harness/cache/store.py:157-173 | one page of the tenant's matching entries is deleted and counted |
| SemanticCache.IngestKeepsCoherence | services/harness/src/harness/cache/store.py:157-173 | any ingestion, completed or stopped, heard or lost, leaves the tenant's cache coherent if and only if it can drop every entry that cites what it changed: at most 1000 if it completes and is heard, else none |
| SemanticCache.CacheStaysCoherent | services/ingestion/src/ingestion/pipeline.py:129-134 | over whole runs kept that way, every entry of the tenant cites only documents unchanged since it was written |
| SemanticCache.EntriesAreRightful | services/harness/src/harness/cache/eligibility.py:21-53 | every entry came from a run that was itself not served from the cache, was embedded and neither refused nor degraded in retrieval, raised no flag and no personal-data event, and whose agent and tools are all cacheable; it is filed in that run's own namespace |
| SemanticCache.FinishWritesExactly | services/harness/src/harness/graph/build.py:430-452 | and every such run adds exactly its entry, no other run changes the cache |
| SemanticCache.HitsComeFromEquals | services/harness/src/harness/graph/build.py:182-219 | whoever is served an entry has the tenant, agent and prompt version of the run that wrote it, one fit to be shared as above, and group names that come to the same pieces; without commas, the same group multiset, a nameless group alone being as good as none |

## Left out

- HTTP clients, FastAPI wiring, JWT handling, token exchange and webhooks: a remote call is an input that returns, is refused or raises.
- The language model, embeddings, reranker, analyzer and vector search: arbitrary inputs; the cache search returns any entry of the namespace, or none.
- Guardrail regexes, prompts, message texts, error details, tracing and metrics: they take no part in a property here.
- Row-level security, migrations and hybrid-search SQL: they rest on the database.
- Restarts of the business API, which empty its in-memory stores: tokens, replies and state live as long as the run.
- Checkpoint resume of a conversation: library behaviour.
- Quota.QuotaManager.Reserve: the window's time left is not rounded to whole seconds.
- Token and cost totals of a run: plain sums.
- LeaveLedger.BooksBalanceUnlessResetMidway: speaks of leave days only; no balance is kept for payroll adjustments, which record nothing but their reply.
- Leave balances staying non-negative: not true of the code, execute never re-checks the balance a preview saw.
- PiiProofs.RestoreUndoesRedact: spans are non-empty, as every recognizer's matches are; an empty span where another one starts could have its placeholder overwritten.
- PiiProofs.RestoreUndoesRedactExactly: the only-if half needs matches without brackets; with brackets inside a match, two wrong replacements can undo each other.
- Policy.Resolver.Resolve: one instant per candidate stands for its two switch readings; the decision's time within one check is not modelled.
- AgentProofs.EffectsAreLawful: a scope parameter named by the empty string is treated by the executor as none, so the scope clause does not cover it; validation is an input that keeps the scope parameter.
- QuotaProofs.SweepLoopLosesNothing: a pass sweeps every reservation that existed when it began; Redis promises the scan that only for keys present throughout.
- MutationTable.Table.TryClaim: `approved_by` and `approved_at`, which the same statement writes and nothing modelled reads.
- MutationTable.Table.UpdateExecutionResult: `executed_at`, for the same reason.
- Jobs.Consumer.ProcessJob: the quota reconcile is an event of `quota.dfy`, and webhook delivery an exception that may or may not come (`Throw`).
- AgentProofs.StubbornModelsNeverFinish: the graph library's own recursion limit, which the repository does not set.
- Catalog.Database.IngestOneDocument: title, language and chunk metadata, which follow the body as the groups do.
- Catalog.RunSyncs: the order in which the database returns rows, chunk ids and embeddings.
- SemanticCache.CacheStaysCoherent: an agent run's retrieval and cache write are one event, so an ingestion in between is excluded; time-to-live is the event that drops any entry.
- Entity counts in guardrail events and report rendering: tallies of lists modelled here.
- EvalRunner.PassingMeansSafe: the personal-data detector is an input list, and lower-casing any function.
- JobEffects.JobExecutesAreBounded: counts executes sent, each of which makes at most one effect (`OneEffectPerToken`); a model that keeps asking for tools has no bound (`StubbornModelsNeverFinish`).
