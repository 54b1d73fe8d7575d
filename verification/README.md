# Aether Forge: a verified model

Aether Forge runs autonomous agents under governance: a planner proposes steps, a policy gate judges
them, a router executes them, a ledger records them, and budgets, rate limits, circuit breakers and
approvals bound what an agent may do. This project models that deterministic logic in Dafny and proves
what holds over every input, every interleaving and every run. `dafny verify dfyconfig.toml` verifies it.

| file | what it models |
|---|---|
| `Runtime.dfy`, `RuntimeExits.dfy`, `RuntimeSafety.dfy`, `RuntimeSession.dfy` | the governed session of `runtime.py`: as a value, every exit of a step, its invariants over every run, and the object that updates its fields in place, with the tick of `runner.py` that drives it |
| `Policy.dfy`, `Values.dfy` | the policy gate and the auto-approving gate |
| `Heuristic.dfy`, `ModelPlanner.dfy` | the two planners, and what they guarantee of a whole session |
| `JsonScanner.dfy` | recovery of a JSON value from a model's prose |
| `Bytes.dfy`, `Rlp.dfy`, `Envelope.dfy`, `Abi.dfy` | minimal integers, RLP (Appendix B of the Ethereum Yellow Paper), the EIP-1559 envelope, and the strings of the Solidity contract ABI |
| `SchemaBundle.dfy` | the `$ref` rewriting that bundles the published JSON schemas |
| `RateLimiter.dfy`, `Budget.dfy`, `TaskStore.dfy`, `Payments.dfy`, `LiveExecutor.dfy` | token bucket, velocity breaker, sliding window and queue, locked budget, order circuit breaker |
| `Evolution.dfy`, `Memory.dfy`, `Migrations.dfy` | governed strategy changes and drawdown, the memory store, schema migration |
| `Results.dfy` | the `Option` type used for exceptions |

Objects that the source updates in place are classes. Their methods are proved equal to functions on
values, and the properties of whole runs are proved of those functions. An operation is written once as a
function and once, where the source loops or assigns, as a method that refines it. What an operation tests
and what it changes is stated again apart from it, on the fields of its arguments and with its numbers written
out: in `RuntimeExits.dfy`, and in the sections of the other files that say so.

## What the proofs found

Each of these is a theorem about the code as it is written.

- A `hold` written by a later rule of the gate replaces an earlier `deny`: `Policy.LastRuleDecides`,
  `Policy.DenyDoesNotDominate`, and a concrete action in `Policy.HeldOutsideItsEnvironment`. An action is denied
  exactly when the last rule that fires denies: `Policy.DeniedIff`.
- A FAILED, PAUSED or COMPLETE session can run again exactly when an approval request is still open, whatever
  is done to it: `RuntimeSafety.FinishedResumesIff`. So a session paused by its step budget cannot be continued
  with a larger one.
- A tick that ends on HOLD or PAUSED is written down as COMPLETE (src/aether_forge/runner.py:385-387). COMPLETE
  means satisfied exactly when no such tick was absorbed, or an approval has resumed the session since:
  `RuntimeSafety.CompleteMeansSatisfied`, step by step `RuntimeSafety.HonestStep`. Both cases are reached from a
  fresh session. One held on a request runs on when the session hydrated from its replay is approved
  (src/aether_forge/cli.py:809-828): `RuntimeSafety.AbsorbedHoldIsReached`. One that exhausted its steps never
  runs again: `RuntimeSafety.AbsorbedPauseIsReached`.
- A full A2A task store rejects every later message, however old its tasks: the purge stands behind the
  fullness check: `TaskStore.FullForever`, and a run that fills it, `TaskStore.FullStoreIsReached`.
  A client can be served again exactly when the store is not full: `TaskStore.ServedAgainIff`.
- The open-order cap of the live executor is a cap on its whole life: `LiveExecutor.OpenOrderCapIsForLife`. Under
  the shipped defaults two orders use it up: `LiveExecutor.DefaultCapIsReached`. Exactly when an order can still be
  placed: `LiveExecutor.PlacesAgainIff`.
- The safety bounds on strategy parameters look only at numbers: `Evolution.NaNIsAccepted`, and exactly
  when an acceptance ends within bounds: `Evolution.AcceptedWithinBounds`.
- The one-pass drawdown is exact on balances that are not negative and can understate otherwise
  (`Evolution.OnePassIsExact`, `Evolution.NegativeBalanceUnderstates`); exactly when it is exact:
  `Evolution.OnePassIsExactIff` and, step by step, `Evolution.FallIsLargest`.
- Bundling loses a schema property that is called `$id`, `$schema` or `__proto__`:
  `SchemaBundle.PropertyNamedIdIsLost`, and exactly which pointers keep their meaning:
  `SchemaBundle.RewriteCommutes`. A fragment outside `#/$defs/` and
  `#/definitions/` is left as it is and points into the bundle's root: `SchemaBundle.OtherFragmentPointsAtRoot`.
- A row can be counted as migrated and stored with an empty or a null version
  (`Migrations.EmptyCamelVersionSlipsThrough`); it is stored at the new version exactly when the camel-case entry
  of the output is missing or right: `Migrations.StoredVersionExact`, `Migrations.MigratedVersionExact`.
- A replay can be exported exactly when every step kind on record is a member of the enumeration:
  `RuntimeSafety.ReplayRoundTrip`. Plain text equal to a member's value runs like the member, and then cannot be
  exported. A session under the shipped planners always can be: `ModelPlanner.NeverUndeclared`.
- An integer of 2^256 or more is encoded as more than one ABI word: `Abi.Uint256RoundTrip`.
- The runner's circuit breaker sees only the last 200 ticks, so a larger threshold never trips:
  `RuntimeSession.BreakerOverTicks`.
- The auto-approve loop passes the request identifier as the approval token, so it approves the first
  pending request, not the named one (src/aether_forge/runner.py:372-373). The session never holds more
  than one request (`RuntimeSafety.ReachableIsGood`), so nothing else is approved.

## Model

| member | source | states |
|---|---|---|
| RuntimeSafety.TakeStepOwes | src/aether_forge/runtime.py:238-520 | whatever branch a step takes, it appends exactly one entry, numbered by the counter, whose verdict is the gate's, whose result needs an allowing verdict, and whose effect on working set, observations and approvals is the whole effect |
| RuntimeExits.HaltedStepFails | src/aether_forge/runtime.py:344-371 | under the kill switch a known capability is neither judged nor executed, and the session fails with everything else as it was |
| RuntimeExits.HaltedRunExecutesNothing | src/aether_forge/runtime.py:344-371 | while the kill switch is on, no entry a run adds has a result, and the working set stays |
| RuntimeExits.UndeclaredStepFails | src/aether_forge/runtime.py:317-334 | a capability that is neither declared nor a memory operation fails the session, halted or not |
| RuntimeExits.UnsupportedStepFails | src/aether_forge/runtime.py:250-262 | text that equals no kind's value fails the session |
| RuntimeExits.MeaningOfKinds | src/aether_forge/runtime.py:29-34 | each kind and the text that equals its value are taken alike |
| RuntimeExits.ReplanStepClears | src/aether_forge/runtime.py:266-272 | a replan drops the rest of the queue and changes nothing else |
| RuntimeExits.AskStepHolds | src/aether_forge/runtime.py:274-288 | a request for approval holds the session with one request for that step |
| RuntimeExits.GapStepHolds | src/aether_forge/runtime.py:290-297 | a reported gap holds the session with its payload, or its description when that is empty |
| RuntimeExits.ReasonStepNotes | src/aether_forge/runtime.py:299-314 | a reason is noted, completes the session iff it is marked so, and drops the queue iff it asks to |
| RuntimeExits.GateIsReached | src/aether_forge/runtime.py:316-378 | a known capability that nothing halts reaches the gate, as the first one declared or the synthetic memory capability |
| RuntimeExits.RefusedStepHolds | src/aether_forge/runtime.py:383-413 | a refusal holds with the gate's reasons, executes nothing, and leaves a request iff one reason is approval-required |
| RuntimeExits.FailedStepFails | src/aether_forge/runtime.py:415-444 | an allowed step executes the router, or the memory store for a memory operation; a failed execution fails the session and learns nothing |
| RuntimeExits.SucceededStepRecords | src/aether_forge/runtime.py:446-520 | a successful one records the sanitized output, drops the queue iff asked to replan, and completes iff marked so |
| RuntimeExits.StepSnapshots | src/aether_forge/runtime.py:643-666 | every entry shows the session before and after its step, under the kill switch as still running |
| RuntimeExits.RunTakesHead | src/aether_forge/runtime.py:222-239 | the planner is asked iff the queue is empty, and the head of the queue is taken with the memory context of the moment |
| RuntimeExits.EmptyPlanFails | src/aether_forge/runtime.py:234-236 | an empty plan ends the run: failed, unless the goal is satisfied |
| RuntimeExits.SpentRunPauses | src/aether_forge/runtime.py:522-523 | a session that does not run is left alone, and a spent budget pauses one that does |
| RuntimeExits.ApprovalDoes | src/aether_forge/runtime.py:534-562 | an approval takes the first matching request off, clears the reasons, keeps the token, and puts a use step with the token in front of the queue |
| RuntimeExits.ApprovalOfNothing | src/aether_forge/runtime.py:534-546 | an approval without a matching request does nothing |
| RuntimeExits.GapIsCleared | src/aether_forge/runner.py:375-378 | a gap is cleared exactly in a session on hold with one and without a request |
| RuntimeSafety.StepKeepsGood | src/aether_forge/runtime.py:222-520 | a step that owes no more than that keeps the session invariant: counter = ledger length, ids 1..n, working set and observations are folds of the ledger, the pending approval is the one the last entry left, goal_satisfied only when COMPLETE |
| RuntimeSafety.RunKeepsGood | src/aether_forge/runtime.py:215-532 | for any planner, router, memory and kill switch a run terminates, never returns RUNNING, keeps the invariant, only extends the ledger, stays within the step budget, pauses only when it is spent, and completes only with the goal satisfied |
| RuntimeSafety.RunIsUnbroken | src/aether_forge/runtime.py:222-520 | within one run each entry leaves the status RUNNING and the approvals empty, and the next entry finds them so |
| RuntimeSafety.ReachableIsGood | src/aether_forge/runtime.py:215-562 | the invariant holds after any sequence of runs, approvals, cleared gaps, absorbed ticks and replays of a fresh session, each replay under any gate |
| RuntimeSafety.AbsorbKeepsGood | src/aether_forge/runner.py:384-387 | the override at the end of a tick keeps it |
| RuntimeSafety.CompleteMeansSatisfied | src/aether_forge/runner.py:384-387 | over every run, COMPLETE means satisfied iff no held or paused tick was absorbed without a later approval resuming the session; satisfied always means COMPLETE |
| RuntimeSafety.HonestStep | src/aether_forge/runner.py:384-387 | an operation on a session whose COMPLETE means satisfied breaks that iff it absorbs a held or paused one |
| RuntimeSafety.WorkingKeys | src/aether_forge/runtime.py:500 | the keys of the working set are the initial ones and those of the successful entries |
| RuntimeSafety.FinishedStep | src/aether_forge/runtime.py:222 | one operation resumes a FAILED, PAUSED or COMPLETE session iff it is an approval that finds a request, and otherwise changes nothing but the name of an absorbed status, and gate and queue at a replay |
| RuntimeSafety.FinishedResumesIff | src/aether_forge/runtime.py:534-562 | some sequence of operations makes a finished session RUNNING iff a request is open, and then it is COMPLETE, not satisfied, and its last entry asked |
| RuntimeSafety.AbsorbedResumesIffAsked | src/aether_forge/runner.py:385-387 | what a tick absorbs from HOLD is resumed by an approval iff its last entry asked |
| RuntimeSafety.AbsorbedHoldResumes | src/aether_forge/cli.py:809-828 | a held session with a request, absorbed and hydrated from its replay, is COMPLETE, unsatisfied, and runs on when approved |
| RuntimeSafety.AbsorbedHoldIsReached | src/aether_forge/runner.py:385-387 | a fresh session whose planner asks ends its tick so, with any budget of at least one step |
| RuntimeSafety.AbsorbedPauseIsReached | src/aether_forge/runner.py:385-387 | a fresh session whose planner never finishes is PAUSED by any budget, absorbed to an unsatisfied COMPLETE, and never runs again |
| RuntimeSafety.NoPromotionExecuted | src/aether_forge/runtime.py:374-417 | no reachable ledger holds an executed memory.promote, whatever changes between the native and the auto-approving gate hydration makes |
| RuntimeSafety.ApproveKeepsGood | src/aether_forge/runtime.py:534-562 | an approval keeps the invariant, resumes only a session on hold or absorbed, and changes nothing when it finds no request |
| RuntimeSafety.ApprovalUnblocks | src/aether_forge/runtime.py:534-562 | under either shipped gate, after an approval, by identifier or not, with a token, budget left and no halt, the next entry is the pending proposal with the token, its reasons are exactly the earlier ones without the token reasons, and it is executed iff there were no others |
| RuntimeSafety.ReplayRoundTrip | src/aether_forge/runtime.py:801-842 | export succeeds iff every kind on record is a member; then hydrating under any gate restores everything but the plan queue, and exporting again gives the same replay |
| RuntimeSafety.ReplayKeepsGood | src/aether_forge/runtime.py:874-927 | a hydrated session satisfies the invariant of the exported one |
| RuntimeSession.RuntimeSession.constructor | src/aether_forge/runtime.py:176-213 | a new session is RUNNING with empty queue, ledger, approvals and observations |
| RuntimeSession.RuntimeSession.Run | src/aether_forge/runtime.py:215-532 | the while loop over the fields refines the value model's run, and returns the status it leaves |
| RuntimeSession.RuntimeSession.Step | src/aether_forge/runtime.py:238-520 | one iteration refines the value model's step in every branch |
| RuntimeSession.RuntimeSession.Use | src/aether_forge/runtime.py:321-520 | resolution, synthetic memory capability, kill switch, gate and execution in the source's order |
| RuntimeSession.RuntimeSession.Refuse | src/aether_forge/runtime.py:383-413 | a refusal blocks with the gate's reasons and asks for approval only for the exact reason approval-required |
| RuntimeSession.RuntimeSession.Finish | src/aether_forge/runtime.py:428-520 | a failed execution fails the session; a successful one records the sanitized output |
| RuntimeSession.RuntimeSession.ApprovePending | src/aether_forge/runtime.py:534-562 | the selection and filter loops refine the value model's approval |
| RuntimeSession.AgentRunner.Retry | src/aether_forge/runner.py:369-382 | one retry is an approval of the pending request, or a cleared gap, each when due, followed by a run; and nothing exactly when neither is due |
| RuntimeSession.AgentRunner.Govern | src/aether_forge/runner.py:362-382 | what is done to the session is governed: each operation is the one due, one run without automatic approval and at most six with it, and a session left held has nothing due or has used all six |
| RuntimeSession.AgentRunner.Tick | src/aether_forge/runner.py:342-445 | a tick's session is governed and absorbed at the end, under the permissive gate and with retries only when approval is automatic in a sandbox or paper environment; the tick reports its status, FAILED or COMPLETE, writes its replay, takes over its working set, loses no key, and keeps the latest 200 reports |
| RuntimeSession.NothingIsApproved | src/aether_forge/runner.py:362-382 | without automatic approval a tick is one run, approves nothing and leaves no approval token |
| RuntimeSession.GovernedIsUnique | src/aether_forge/runner.py:362-382 | the rule fixes the operations: two ways of governing the same session are the same |
| RuntimeSession.ResumedIsRunAgain | src/aether_forge/runner.py:369-382 | an approved or cleared session is run again before the tick ends |
| RuntimeSession.RunNotRunning | src/aether_forge/runtime.py:522-532 | no run, from any session at all, returns RUNNING |
| RuntimeSession.BreakerOnBoundedHistory | src/aether_forge/runner.py:671-679 | on the bounded history the breaker trips iff the threshold is at most 200 and it trips on the full one |
| RuntimeSession.HistoryIsLatest | src/aether_forge/runner.py:134 | over any sequence of ticks the deque holds the latest 200 of all reports |
| RuntimeSession.BreakerOverTicks | src/aether_forge/runner.py:671-679 | over any sequence of ticks the breaker trips iff its threshold is from 1 to 200, that many reports were made, and none of the last that many is COMPLETE |
| Policy.NativePolicyGate.EvaluateAction | src/aether_forge/policy.py:72-235 | the statement-by-statement gate computes the fold over the thirteen rules in their order |
| Policy.DecisionAlgebra | src/aether_forge/policy.py:84-235 | allow iff no reasons, then informative and with no approval path; as many rule matches as reasons; a reason is reported iff its rule fires |
| Policy.CredentialReasons | src/aether_forge/policy.py:95-110 | missing is reported iff a handle is named and none has its identifier, out of scope iff the first handle with it does not allow the environment |
| Policy.CredentialScopeOfDistinct | src/aether_forge/policy.py:95-110 | with distinct identifiers: iff some handle with the identifier lacks the environment |
| Policy.LimitReasons | src/aether_forge/policy.py:89-132 | on the fields of the action, when environment, exposure and staleness are reported |
| Policy.ApprovalReasons | src/aether_forge/policy.py:134-144 | when the two general approval reasons and missing effect semantics are reported |
| Policy.WalletReasons | src/aether_forge/policy.py:146-176 | when the three wallet reasons are reported |
| Policy.MemoryReasons | src/aether_forge/policy.py:185-206 | when the two memory reasons are reported, with the deny lists written out |
| Policy.VerdictAlone | src/aether_forge/policy.py:89-206 | rule, disposition, severity and approval path of each of the thirteen reasons when it is the only one |
| Policy.PathIsManual | src/aether_forge/policy.py:229-232 | the approval path is manual iff the action is held and a reason needs approval or is a promotion |
| Policy.LastRuleDecides | src/aether_forge/policy.py:89-182 | the disposition is that of the last rule that fires |
| Policy.DeniedIff | src/aether_forge/policy.py:89-182 | an action is denied iff the last rule that fires denies |
| Policy.DenyDoesNotDominate | src/aether_forge/policy.py:89-125 | an action outside its environment and over its notional limit is held, not denied |
| Policy.HeldOutsideItsEnvironment | src/aether_forge/policy.py:89-125 | a concrete capability and payload for which that happens |
| Policy.PromotionNeverAllowed | src/aether_forge/policy.py:201-206 | neither gate ever allows memory.promote |
| Policy.TokenFiltersReasons | src/aether_forge/policy.py:134-176 | a token removes exactly the three token-approval reasons |
| Policy.AutoApproveFilters | src/aether_forge/runner.py:861-877 | the auto-approving gate reports exactly the base reasons without the three, and allows iff none is left |
| Heuristic.PlanIsWell | src/aether_forge/planner.py:344-480 | a plan is one useful step, the context step with its closing step, a closing step, or a reported gap |
| Heuristic.DecidesInOrder | src/aether_forge/planner.py:344-480 | the order in which memory, context, order, price and basis are chosen |
| Heuristic.UsesCarryInputs | src/aether_forge/planner.py:378-460 | order, price and basis steps carry the scenario's inputs or their defaults |
| Heuristic.ReadsCarryScope | src/aether_forge/planner.py:344-377 | the memory step carries scope and environment, the context step nothing |
| Heuristic.HeuristicSettles | src/aether_forge/planner.py:344-480 | under an always-allowing gate and plain success a run ends COMPLETE or in a reported-gap HOLD within the steps its measure says, COMPLETE iff the session can complete |
| Heuristic.FreshHeuristicSession | src/aether_forge/planner.py:344-480 | a fresh session settles within five steps, and ends COMPLETE iff a capability that counts is declared or has a result, or the market is in a spike |
| JsonScanner.LargestBalancedJson | src/aether_forge/planner.py:69-109 | the stack scanner returns the earliest longest span of the clamped-depth reference, and nothing iff there is none |
| JsonScanner.LargestIsUnique | src/aether_forge/planner.py:69-109 | that reference has one solution, so the scanner's result is determined |
| JsonScanner.PrintLevel | src/aether_forge/planner.py:79-92 | reading a printed JSON value, escapes and nesting included, never goes below its starting depth and ends where it began |
| JsonScanner.OnlySpan | src/aether_forge/planner.py:79-109 | in prose around a printed object or array the printed text is the one and only span |
| JsonScanner.NoiseRecovery | src/aether_forge/planner.py:69-109 | every result meeting the reference is exactly the printed text |
| JsonScanner.Recover | src/aether_forge/planner.py:69-109 | the scanner itself recovers exactly the printed text |
| ModelPlanner.ExtractJson | src/aether_forge/planner.py:34-66 | failure on blank text; else the text cleaned of white space and one fence pair if it parses, else the largest balanced candidate if that parses, else failure |
| ModelPlanner.CleanTrims | src/aether_forge/planner.py:48-52 | cleaning removes no opening bracket at the front and no closing one at the back |
| ModelPlanner.FencedIsCleaned | src/aether_forge/planner.py:48-52 | an answer fenced with a language tag, or with none, is read as the text inside the fence |
| ModelPlanner.ParseResponse | src/aether_forge/planner.py:280-329 | the loop over at most max_plan_steps steps (Python slice, negative bounds included) refines the step-by-step reading |
| ModelPlanner.ProposePlan | src/aether_forge/planner.py:165-202 | which plan is returned and exactly when each of the four failures is recorded; every failure falls back on the heuristic plan, and a plan without failure is not empty |
| ModelPlanner.TranslateCalls | src/aether_forge/adapters/function_call.py:83-138 | the loop over the tool calls refines the translation |
| ModelPlanner.ProposePlanToolMode | src/aether_forge/planner.py:204-258 | tool mode returns an actionable translation, or the heuristic plan with exactly the failure that occurred |
| ModelPlanner.TranslateInside | src/aether_forge/adapters/function_call.py:83-138 | whatever tools a model calls, the translation stays inside the manifest, and there is always a plan |
| ModelPlanner.CallsInOrder | src/aether_forge/adapters/function_call.py:99-118 | each call becomes, in its place, a request for approval iff the answer requires it and else a use step, for that very capability with its arguments; or a reported gap that names it |
| ModelPlanner.SpokenSteps | src/aether_forge/adapters/function_call.py:90-136 | the reasoning comes first and never completes the session, the final message last and always does, and an answer with nothing is a gap |
| ModelPlanner.CallIsActionable | src/aether_forge/planner.py:246-253 | a tool call keeps the plan from falling back if and only if its capability is declared or its name does not quote the empty-plan note |
| ModelPlanner.ToolPlanIsKept | src/aether_forge/planner.py:239-256 | tool calls give the plan iff the answer says something or calls a capability that is declared or does not quote the empty-plan note; else the fallback does |
| ModelPlanner.NoPlanIsNotActionable | src/aether_forge/planner.py:246-253 | an answer with nothing to plan falls back |
| ModelPlanner.ApprovalPlanExecutesNothing | src/aether_forge/adapters/function_call.py:110 | over every run no entry for a step of an answer that requires approval has a verdict or a result |
| ModelPlanner.ApprovalAnswerHolds | src/aether_forge/adapters/function_call.py:99-118 | the first call of such an answer holds the session before anything is executed |
| ModelPlanner.CapabilityStepIsRead | src/aether_forge/planner.py:302-327 | a step for a declared capability, in either spelling, is read as it is; one for an undeclared capability becomes a gap that names it |
| ModelPlanner.CamelCaseIsPreferred | src/aether_forge/planner.py:302 | the camel-case identifier is read unless it is missing or one of the six falsy values |
| ModelPlanner.MuteStepIsSkipped | src/aether_forge/planner.py:288-300 | a step that is no object, has no known kind or says nothing is skipped |
| ModelPlanner.StepsAreCut | src/aether_forge/planner.py:283-288 | the steps are the list under steps, or the answer when it is a list, cut at the limit |
| ModelPlanner.NoiseIsRemoved | src/aether_forge/planner.py:34-66 | extraction from an answer with prose and fences around a printed object gives what the object alone means to `json.loads` |
| ModelPlanner.NoisyPlanIsUnderstood | src/aether_forge/planner.py:34-109 | a plan printed by a model in the answer schema, wrapped in prose and fences, comes back as exactly that plan |
| ModelPlanner.ReadSaidSteps | src/aether_forge/planner.py:280-329 | a plan stated in the answer schema is read back as itself |
| ModelPlanner.ReadStepsInside | src/aether_forge/planner.py:280-329 | whatever a model answers, proposals use only declared capabilities and known kinds, and are no more than the steps |
| ModelPlanner.PromptDrivenInside | src/aether_forge/planner.py:144-258 | the prompt-driven planner, in either mode and with its fallback, always plans inside the manifest |
| ModelPlanner.NeverUndeclared | src/aether_forge/planner.py:146-150 | over any sequence of runs, approvals, absorbed ticks and replays with such planners no step fails for an undeclared capability or an unsupported kind, and every session can be exported and hydrated |
| Bytes.ToBytesSound | src/aether_forge/onchain_registry.py:110-114 | the integer bytes read back as the integer and have no leading zero |
| Bytes.ToBytesComplete | src/aether_forge/onchain_registry.py:110-114 | every byte string without a leading zero is the encoding of the number it stands for |
| Bytes.EightBytes | src/aether_forge/onchain_registry.py:91-107 | the length bytes fit eight exactly below 2^64 |
| Bytes.HexToBytesRoundTrip | src/aether_forge/onchain_registry.py:117-122 | 0x-marked hexadecimal reads back as the bytes |
| Bytes.HexToBytesValue | src/aether_forge/onchain_registry.py:117-122 | any text, marked or not, of even or odd length, is refused iff a character of it is no digit, and else gives the bytes of its number |
| Rlp.DecodeEncode | src/aether_forge/onchain_registry.py:91-107 | the strict decoder recovers every encoded item, whatever follows it |
| Rlp.EncodeDecode | src/aether_forge/onchain_registry.py:91-107 | re-encoding what the strict decoder read gives the same bytes |
| Rlp.DecodesExactly | src/aether_forge/onchain_registry.py:91-107 | a byte string decodes to an item and a rest iff it is the item's encoding followed by the rest |
| Rlp.PrefixFree | src/aether_forge/onchain_registry.py:91-107 | no encoding is a prefix of another, and encodings are unique |
| Rlp.WrapListDefined | src/aether_forge/onchain_registry.py:101-107 | the list encoder raises exactly from 2^64 payload bytes on |
| Envelope.FieldsAreList | src/aether_forge/onchain_registry.py:138-156 | the encoder's parts, with the last overwritten by the empty list, are the RLP encoding of the nine items of EIP-1559 |
| Envelope.EnvelopeRoundTrip | src/aether_forge/onchain_registry.py:130-156 | an independent strict reader of the envelope gets exactly the eight fields and an empty access list |
| Envelope.DictionaryRoundTrip | src/aether_forge/onchain_registry.py:130-156 | from the text of the dictionary, the strict reader finds each of the eight values in its own place, defaults for absent keys, chain id 8453 among them; refused only for a payload of 2^64 bytes or more |
| Envelope.UnreadableIsRefused | src/aether_forge/onchain_registry.py:138-147 | a dictionary with any unreadable key is refused |
| Envelope.ItemsMeanFields | src/aether_forge/onchain_registry.py:138-150 | the items stand for the transaction's fields, and number fields have no leading zero byte |
| Envelope.EnvelopeInjective | src/aether_forge/onchain_registry.py:130-156 | equal envelopes come from equal transactions |
| Envelope.UnsignedDefined | src/aether_forge/onchain_registry.py:130-156 | the encoder fails exactly on unreadable fields or a payload of 2^64 bytes or more |
| Abi.Uint256RoundTrip | src/aether_forge/onchain_registry.py:164-166 | what is encoded decodes to its number, and is one 32-byte word iff the number is below 2^256 |
| Abi.StringRoundTrip | src/aether_forge/onchain_registry.py:177-194 | encoding is refused exactly over the size limit, and the call-result decoder recovers every encoded string |
| Abi.EncodedLength | src/aether_forge/onchain_registry.py:190-194 | an encoded string is its length word and the fewest whole words that hold it |
| Abi.EmptyAnswer | src/aether_forge/onchain_registry.py:260-278 | an empty answer is zero and the empty string, and one shorter than two words is the empty string |
| Abi.RegisterCallCarriesUri | src/aether_forge/onchain_registry.py:197-202 | the call data is the selector and whole words that decode to the URI |
| SchemaBundle.RewriteCommutes | sdk-ts/scripts/generate-schemas.ts:81-123 | rewriting commutes with JSON Pointer resolution iff the pointer meets no dropped key and no rewritten reference |
| SchemaBundle.RewriteShape | sdk-ts/scripts/generate-schemas.ts:81-123 | objects keep all keys but three, arrays their length, scalars themselves |
| SchemaBundle.LeavesAreKept | sdk-ts/scripts/generate-schemas.ts:81-123 | a scalar at an unblocked pointer is found unchanged in the result |
| SchemaBundle.ForeignRefStays | sdk-ts/scripts/generate-schemas.ts:92-113 | a reference that is neither internal nor published stays as it is |
| SchemaBundle.BundleListsAll | sdk-ts/scripts/generate-schemas.ts:132-145 | every schema is a definition and a property of the bundle |
| SchemaBundle.BundleRoot | sdk-ts/scripts/generate-schemas.ts:146-153 | the root is a closed object of draft 2020-12 with the two tables and nothing else |
| SchemaBundle.PropertyNamedIdIsLost | sdk-ts/scripts/generate-schemas.ts:115-117 | a concrete schema for which it does not |
| SchemaBundle.InternalRefMeaning | sdk-ts/scripts/generate-schemas.ts:107-113 | internal references lead in the bundle to the rewrite of what they led to iff they are not blocked |
| SchemaBundle.ExternalRefMeaning | sdk-ts/scripts/generate-schemas.ts:94-106 | published references lead in the bundle to the rewrite of what they led to in their own schema iff they are not blocked |
| SchemaBundle.OtherFragmentPointsAtRoot | sdk-ts/scripts/generate-schemas.ts:107-113 | other fragment references stay as they are: `#` means the bundle, and any other pointer resolves iff it is a root key or names a title under `properties` |
| SchemaBundle.RefsOfRewrite | sdk-ts/scripts/generate-schemas.ts:81-123 | the references of the result are exactly the rewrites of those of the original |
| SchemaBundle.BundleIsClosed | sdk-ts/scripts/generate-schemas.ts:128-153 | when every reference of every schema means something, every reference in the bundle resolves in the bundle |
| RateLimiter.RateLimiter.Allow | src/aether_forge/security.py:474-482 | the call refines the bucket's refill-and-take, and keeps the level between 0 and the maximum |
| RateLimiter.RateLimiter.Refill | src/aether_forge/security.py:484-492 | the refill refines the bucket's, capped at the maximum |
| RateLimiter.RateLimiter.Reset | src/aether_forge/security.py:494-497 | a reset limiter is a new one |
| RateLimiter.LevelIsLeastRoom | src/aether_forge/security.py:474-492 | the one number kept is the least room over all windows ending now |
| RateLimiter.GrantedExactly | src/aether_forge/security.py:474-482 | a call is granted iff every window ending with it stays within max_requests + rate * length |
| RateLimiter.WindowBound | src/aether_forge/security.py:464-497 | between any two calls at most max_requests + rate * elapsed grants |
| RateLimiter.FreshIsFull | src/aether_forge/security.py:464-472 | a new limiter is full and regains max_requests in one window |
| RateLimiter.GrowIsProportional | src/aether_forge/security.py:484-492 | what is regained is the elapsed time times max_requests per window |
| Budget.BudgetControl.RecordSpend | src/aether_forge/security.py:193-199 | recording refines the value model |
| Budget.BudgetControl.CheckVelocity | src/aether_forge/security.py:201-233 | prunes to the window and trips exactly on the velocity test |
| Budget.RecentIsWindow | src/aether_forge/security.py:193-233 | the pruned list is the window of the full spend log, the counters those of the whole log |
| Budget.TripsAsFullLog | src/aether_forge/security.py:201-233 | the breaker trips exactly when the velocity test on the full log says so |
| Budget.BudgetNeverExceeded | src/aether_forge/security.py:172-199 | a caller that asks before it spends never exceeds the budget |
| Budget.TooFastIff | src/aether_forge/security.py:201-233 | the velocity test, on the full log and with its numbers written out |
| Budget.TrippedIff | src/aether_forge/security.py:201-238 | over every run the breaker is tripped iff some spend was too fast and no later operation reset it |
| Budget.SpendAllowedIff | src/aether_forge/security.py:172-191 | after any run a spend is allowed iff it is not negative, fits the limit, and the breaker is not tripped |
| TaskStore.TaskStore.CheckRateLimit | src/aether_forge/a2a_server.py:114-127 | the object refines the value model of the limiter |
| TaskStore.TaskStore.CleanupOldTasks | src/aether_forge/a2a_server.py:132-157 | the loop removes exactly the terminal tasks older than the retention |
| TaskStore.TaskStore.CreateTask | src/aether_forge/a2a_server.py:159-172 | cleanup, then the new task as submitted |
| TaskStore.TaskStore.UpdateTask | src/aether_forge/a2a_server.py:177-194 | restamps a known task and ignores an unknown one |
| TaskStore.TaskStore.HandleSend | src/aether_forge/a2a_server.py:291-322 | rate limit, then fullness, then creation |
| TaskStore.PrunedDecidesAsFull | src/aether_forge/a2a_server.py:114-127 | the pruned lists decide every request as the full acceptance history does |
| TaskStore.AtMostSixtyPerWindow | src/aether_forge/a2a_server.py:114-127 | no half-open window of 60 seconds holds more than 60 acceptances of a client |
| TaskStore.QueueBounded | src/aether_forge/a2a_server.py:129-172 | no run of requests stores more than 1000 tasks |
| TaskStore.SendPurgesExactly | src/aether_forge/a2a_server.py:132-172 | an accepted message purges exactly the stale terminal tasks and leaves the others as they were |
| TaskStore.SendOutcome | src/aether_forge/a2a_server.py:291-302 | a message is answered by the first of rate limit, full queue and acceptance, with their numbers; its time is recorded unless it is rate-limited |
| TaskStore.CancelEffect | src/aether_forge/a2a_server.py:336-343 | a cancellation marks and restamps its task and nothing else, and neither it nor a query is refused |
| TaskStore.FullForever | src/aether_forge/a2a_server.py:291-302 | once full, the store keeps its tasks and accepts nothing |
| TaskStore.ServedAgainIff | src/aether_forge/a2a_server.py:291-302 | a client can be served again, after whatever operations, iff the store is not full now |
| TaskStore.FullStoreIsReached | src/aether_forge/a2a_server.py:291-302 | a thousand served messages from a thousand clients fill the empty store, and nothing is accepted afterwards though every task is terminal and past its retention |
| Payments.StepSerialized | src/aether_forge/agent_payments.py:309-427 | one shared access by any caller keeps the lock holder midway through a payment on the serial books |
| Payments.EveryInterleavingIsSerial | src/aether_forge/agent_payments.py:309-427 | every interleaving leaves the books as the finished payments one at a time, in the order of release |
| Payments.SerialBalanced | src/aether_forge/agent_payments.py:636-652 | session total, each day's total and payment count grow by exactly what the settled lines say, and each settled line is within the per-call cap and its recipient permitted |
| Payments.PaidIsPermitted | src/aether_forge/agent_payments.py:472-529 | in every interleaving each caller that has paid was within the per-call cap and had its amount, recipient and chain permitted |
| Payments.PaidMeetsPolicy | src/aether_forge/agent_payments.py:472-529 | in every interleaving whoever is past the check has an enabled policy with a positive limit no less than the amount, an allowed chain and a listed recipient when there are lists, written out |
| Payments.PermittedIsPaid | src/aether_forge/agent_payments.py:337-425 | a lock holder that meets policy and budget, and whose send succeeds, ends paid, recorded and audited |
| Payments.RefusedSpendsNothing | src/aether_forge/agent_payments.py:337-378 | a payment that meets not all of them is neither sent nor recorded |
| Payments.OutcomeIff | src/aether_forge/agent_payments.py:337-425 | which of the five outcomes a payment has, exactly, the line each writes, and that only a paid one changes the file |
| Payments.FirstPayment | src/aether_forge/agent_payments.py:125-158 | with no readable state file the first payment is measured against the caps alone and the new file holds just it |
| Payments.FileIsLog | src/aether_forge/agent_payments.py:636-652 | from an absent file and an empty log, whenever the lock is free the file holds exactly what the log settled |
| Payments.BudgetUnderConcurrency | src/aether_forge/agent_payments.py:125-158 | in every interleaving the session total stays within its cap at every moment, and balances whenever the lock is free |
| Payments.SomebodyCanMove | src/aether_forge/agent_payments.py:309-336 | no deadlock: while somebody is not done, some caller can move |
| LiveExecutor.LiveExecutor.PlaceOrder | src/aether_forge/live_execution.py:141-227 | the method refines the value model on every outcome |
| LiveExecutor.LiveExecutor.CheckBudget | src/aether_forge/live_execution.py:260-288 | the caps are checked in the source's order |
| LiveExecutor.LiveExecutor.ResetCircuitBreaker | src/aether_forge/live_execution.py:229-233 | clears the trip and the failures, and audits it |
| LiveExecutor.LiveExecutor.RecordDailyLoss | src/aether_forge/live_execution.py:81-85 | the method refines the value model |
| LiveExecutor.ExecutorIsSound | src/aether_forge/live_execution.py:141-233 | over any orders, losses and resets: spending is the sum of placed notionals and within the cap, open orders are the placed ones and within the cap, an untripped circuit has fewer failures than the limit, each attempt is answered at once by exactly one line |
| LiveExecutor.OrderOutcome | src/aether_forge/live_execution.py:253-288 | an order is attempted iff it is within the rails, written out; each refusal says which rail stopped it first and changes nothing |
| LiveExecutor.OrderEffect | src/aether_forge/live_execution.py:161-227 | what a placed and a failed order leave behind |
| LiveExecutor.DailyLossIsReported | src/aether_forge/live_execution.py:77-85 | the loss of a day is the sum of the positive losses reported for it, over any run |
| LiveExecutor.OnlyLossesAreRecorded | src/aether_forge/live_execution.py:81-85 | a loss that is not positive changes nothing, another only its day |
| LiveExecutor.ResetEffect | src/aether_forge/live_execution.py:229-233 | a reset clears trip and failures and nothing else |
| LiveExecutor.TrippedAdmitsNothing | src/aether_forge/live_execution.py:253-258 | without a reset a tripped circuit changes neither spending nor log |
| LiveExecutor.OpenOrderCapIsForLife | src/aether_forge/live_execution.py:210 | once the open-order cap is reached nothing is placed again, whatever is reset |
| LiveExecutor.PlacesAgainIff | src/aether_forge/live_execution.py:253-288 | an order can be placed again, after whatever operations, iff the open-order cap is not reached, the breaker is not configured open, and some day has room for losses |
| LiveExecutor.DefaultCapIsReached | src/aether_forge/live_execution.py:40-63 | under the shipped defaults two placed orders reach it, with eighteen of twenty dollars left |
| Evolution.RuntimeAutoresearch.AcceptProposal | src/aether_forge/evolution.py:299-328 | the search loop and the mutations refine the value model |
| Evolution.RuntimeAutoresearch.RejectProposal | src/aether_forge/evolution.py:330-338 | rejects the first open proposal of that id, if any |
| Evolution.RuntimeAutoresearch.ApplyMutations | src/aether_forge/evolution.py:307-313 | whatever the order of the mutations, known parameters and unshadowed entry rules change, nothing else |
| Evolution.StrategyIsSourced | src/aether_forge/evolution.py:299-338 | the strategy is the fold of its new history; metrics and key set never change; version minus history length is constant; one change per accepted proposal |
| Evolution.AcceptedIff | src/aether_forge/evolution.py:299-328 | the first open proposal is accepted iff no mutation to a number loosens a metric or leaves a bound, written out; and what acceptance and refusal change |
| Evolution.RejectedEffect | src/aether_forge/evolution.py:330-338 | a rejection closes that proposal with its feedback and nothing else |
| Evolution.ProposedIsOpen | src/aether_forge/evolution.py:293-298 | a proposal is added open behind the others and changes nothing else |
| Evolution.NothingOpenNothingDone | src/aether_forge/evolution.py:299-338 | without an open proposal of the identifier neither does anything |
| Evolution.VerdictsAreFinal | src/aether_forge/evolution.py:299-338 | a proposal leaves the open state at most once and is never dropped or rewritten |
| Evolution.NumbersStayInBounds | src/aether_forge/evolution.py:414-447 | numeric parameters within the safety bounds stay there over every run |
| Evolution.AcceptedWithinBounds | src/aether_forge/evolution.py:423-447 | an accepted proposal leaves a bounded parameter within bounds iff its mutation is a number, or it has none and the parameter was |
| Evolution.NaNIsAccepted | src/aether_forge/evolution.py:436-446 | a NaN for a bounded parameter is accepted |
| Evolution.MaxDrawdown | src/aether_forge/evolution.py:158-166 | the loop computes the running-peak drawdown |
| Evolution.OnePassIsExact | src/aether_forge/evolution.py:158-166 | on balances that are not negative it is the largest loss over all pairs |
| Evolution.OnePassIsExactIff | src/aether_forge/evolution.py:158-166 | on any balances it is the largest loss iff every loss to a negative balance is matched by a negative balance as far below its running peak |
| Evolution.FallIsLargest | src/aether_forge/evolution.py:158-166 | the fall seen at a balance is the largest loss ending there iff the balance is not negative or every positive one so far equals the peak |
| Evolution.OnePassNeverOverstates | src/aether_forge/evolution.py:158-166 | on any balances it is the loss of some pair |
| Evolution.NegativeBalanceUnderstates | src/aether_forge/evolution.py:158-166 | with a negative balance it can be less than the largest loss |
| Evolution.MaxDrawdownIsUnique | src/aether_forge/evolution.py:158-166 | the reference drawdown is unique |
| Memory.ScanIsExact | src/aether_forge/memory.py:344-360 | the recursive scan reports exactly the paths to secret-like keys, at every depth |
| Memory.CleanMeansNoSecret | src/aether_forge/memory.py:336-360 | content passes iff no key at any depth looks like a secret |
| Memory.StoreIsClean | src/aether_forge/memory.py:240-277 | over any writes and promotions no stored record holds a secret or a confidence out of range |
| Memory.WrittenIff | src/aether_forge/memory.py:240-244 | a record is stored iff its confidence is between 0 and 1 and no path leads to a secret-like key |
| Memory.PromotedIff | src/aether_forge/memory.py:199-220 | each verdict of a promotion, on the record and the request |
| Memory.PromotionLeavesTrail | src/aether_forge/memory.py:246-277 | a promotion needs an approval and stores a copy of its source, with that content, in another environment, its provenance ending with source and approval, and touches no other record |
| Memory.PromotionsAccounted | src/aether_forge/memory.py:246-277 | over any run, until a write reuses its identifier, a promoted record stays the copy of its source as that was then: content, and provenance ending with source and approval |
| Memory.InMemoryMemoryStore.WriteRecord | src/aether_forge/memory.py:240-244 | stores the validated record or raises and stores nothing |
| Memory.InMemoryMemoryStore.PromoteRecord | src/aether_forge/memory.py:246-277 | the object refines the value model of promotion |
| Migrations.MigrationRunner.ApplyToMemoryStore | src/aether_forge/migrations.py:173-253 | preflight, backup and row loop refine the value model |
| Migrations.MigrationRunner.VisitRows | src/aether_forge/migrations.py:215-251 | the row loop refines the fold, an exception from the store ending it |
| Migrations.MigrationRunner.VisitRow | src/aether_forge/migrations.py:218-251 | one row is an issue and a skip, or a counted migration and, outside a dry run, a write |
| Migrations.DryRunPredictsApply | src/aether_forge/migrations.py:173-253 | dry run and apply give the same counts and issues, scanned = migrated + skipped, the dry run changes nothing, apply makes exactly the planned writes |
| Migrations.StartsIff | src/aether_forge/migrations.py:196-213 | when a run starts, and which issue stops it first |
| Migrations.MigratesIff | src/aether_forge/migrations.py:218-243 | a row migrates iff its output's camel-case version is the new one, or is missing, null or empty beside a snake-case one that is |
| Migrations.IssueOfRow | src/aether_forge/migrations.py:218-243 | the issue of each skipped row |
| Migrations.RunIsApplied | src/aether_forge/migrations.py:215-251 | a run that starts and whose writes are accepted leaves exactly the planned writes, with one issue for each skipped row |
| Migrations.AbortedIff | src/aether_forge/migrations.py:215-251 | a run that starts is aborted iff it writes and the store refuses one of its rows |
| Migrations.VisitStops | src/aether_forge/migrations.py:226-251 | the first refused write ends the loop with the rows before it written and none after |
| Migrations.RowAfter | src/aether_forge/migrations.py:215-251 | with or without issues, an identifier-keeping apply changes exactly the migrated rows, each to its own output; no row appears or disappears |
| Migrations.StoredVersionExact | src/aether_forge/memory.py:106 | an output that passes the version check is stored at the new version iff its camel-case entry is missing or right |
| Migrations.MigratedVersionExact | src/aether_forge/migrations.py:235-251 | after a run a row is at the new version iff it migrated with its version in place, or was there before |
| Migrations.SecondScanFindsRemaining | src/aether_forge/migrations.py:394-406 | between different versions a second scan finds exactly the skipped candidates, and those stored at an empty old version |
| Migrations.SecondScanEmpty | src/aether_forge/migrations.py:394-406 | for any transform a second scan is empty iff every candidate's identifier was rewritten and no final write is at the old version |
| Migrations.KeepingIdsMigratesAll | src/aether_forge/migrations.py:173-253 | a transform that keeps identifiers leaves nothing for a second scan iff no candidate was skipped or stored at an empty old version |
| Migrations.EmptyCamelVersionSlipsThrough | src/aether_forge/migrations.py:235-242 | outputs with an empty or a null camel-case version are counted and stored with that version |

## Left out

- Network, RPC, signing, subprocess and file access: their outcomes are inputs (`Oracles`, `sent`,
  `Backup`, `accepts`), and they neither change the session nor raise inside `run`.
- Floating-point rounding and ISO time stamps: money, tokens and times are exact numbers, and clocks do not
  go back.
- UUIDs are inputs; step identifiers are numbers, so that `step_4` is 4; reason and rule identifiers and
  most messages are enumerations.
- Events, logging, the planner's failure note in the session state, and the prompt text and tool schemas.
- The injection scanner is a parameter (`Config.sanitize`), and so are `json.loads` (`ModelPlanner.Library`),
  Python's rendering of numbers and containers (`Policy.Settings`) and the secret-like key pattern. White space
  and letter case are ASCII.
- The x402 and escrow channels: only the transfer channel is modelled. A crash between sending and recording
  is not modelled.
- ModelPlanner.NoisyPlanIsUnderstood: `loads` is not derived from the grammar; it is only required to read the
  printed value as itself and to make nothing else of the cleaned answer. Containers inside a payload are opaque.
- Payments.SerialBalanced: a settled audit line carries no chain, as in the source, so the chain rule is stated of
  the payments instead (`Payments.PaidIsPermitted`).
- Envelope.EnvelopeRoundTrip: addresses are not checked to be 20 bytes, as in the source; `int` and
  `fromhex` leniency about signs, underscores and white space, and text encoding, are not modelled.
- SchemaBundle.RewriteCommutes: only own keys are modelled, not those inherited from a prototype that `__proto__`
  sets.
- SchemaBundle.ExternalRefMeaning: percent-encoded fragments and anchors that are not JSON Pointers are not
  modelled.
- RuntimeSafety.ReplayRoundTrip: step kinds that are neither members nor text, the JSON text of a replay file and aliasing between the exported lists and
  the live session are not modelled.
- Memory queries and their sorting, `read_for_environment`, metadata other than the promotion note, and
  expiry: lookups over the stored records.
- Migration of artifact files, and non-text version values other than null.
- RuntimeSession.AgentRunner.Tick: memory summaries, replay files, autoresearch and knowledge hooks and the
  run loop's sleeping are not modelled.
