# Verified model of the OCCP control plane's core algorithms

This project models, in Dafny, the parts of the control plane for autonomous agents that carry real
algorithms or state machines, and proves what they promise. One module stands for one component:

- `EditDistance`: the two-row edit distance behind fuzzy intent matching. It computes the recursive
  distance, which is a metric and is the least number of single-character edits.
- `Glob`, `SelfModifier`: the glob-to-regex compiler of the self-modification policy and the tiered rule
  engine on top. The compiled pattern is text; it reads back as a regular expression that matches exactly
  what the glob means.
- `KillSwitch`, `RedisKillSwitch`: the in-process hard stop with its audit trail, and the persistent switch
  that keeps a copy of it in Redis while any command may fail before or after its effect. Both copies
  stand for one flag.
- `OpenClawConnection`: request/response and chat correlation over one WebSocket, as interleaved steps.
- `Breakers`, `LlmPlanner`: two circuit breakers written differently, shown to be interchangeable, and the
  failover chain that uses one of them.
- `ConfirmationGate`: the human approval gate with concurrent waiters, two dictionaries and five counters.
- `RateLimiter`: the sliding-window limiter that answers 429 with Retry-After (section 4 of RFC 6585,
  section 10.2.3 of RFC 9110).
- `VerificationGate`, `ResidualRisk`, `ApprovalQueue`, `RateBudget`, `SandboxWorktree`, `WorktreeDiff`: the
  parts of the auto-dev pipeline; the last is the diff git prints of a worktree and what is read out of it.
  `AutoDevSpec` is the pipeline as a machine over values, `AutoDevSafety` its invariant, `AutoDevPromises` the
  theorems over every run, `AutoDevOutcomes` what each call does and the reviews of a day, `AutoDevWitnesses`
  the runs on which a promise fails, and `AutoDevOrchestrator` the objects that share handles and are updated
  in place, each method proved to be one step of the machine.
- `Histogram`, `MarkdownEscape`: cumulative buckets by label set, and the five-pass escaper.
- `Common`, `TextOrder`: result types, capped histories, the order of strings.

A component that the program updates in place is a class here. Its `View()` is the value it stands for,
and each method says that the new view is the specified function of the old one. Whole runs, interleavings
and every pattern of failures are then handled on values. Times are passed in as arguments.

`dafny verify dfyconfig.toml` checks the project.

## Where the program falls short of what is promised or expected

The model follows the program. For each of these there is the exact condition under which the promise
holds, as an if and only if, and a run or an input on which it fails.

- `*` and `?` are documented not to match a slash, but a glob without `**` and braces goes to `fnmatch`,
  where they do: `SelfModifier.SimpleMatchByMeaningExactly` path by path and
  `Glob.SimpleGlobFaithfulExactlyWithoutWildcards` for all paths (the failing path is `Glob.SlashedMatches`).
- `**` is documented to match whole path segments, but `**` with its slash matches any text. The readings
  agree when a star follows directly, as in every shipped rule: `Glob.SegmentReadingsAgree`; with a literal
  behind it they differ: `Glob.SegmentReadingsDiffer`. (Here only that direction is proved.)
- `.` and `$` treat a line feed specially, so a path with a line feed can be matched wrongly:
  `Glob.FaithfulExactlyWithoutLineFeed` (failing globs: `Glob.ShapeMatches`, `Glob.DoubleStarAlone`).
- The kill switch "never auto-deactivates", but a drill replaces ACTIVE by DRILL:
  `KillSwitch.HoldsExactlyWithoutLaterDrill`, `KillSwitch.DrillEndsHardStop`.
- The persistent switch "must never fail open", but a process whose memory copy starts clear while Redis
  holds the flag answers "inactive" after the first failure, and one that finds JSON that is no object under
  the halt key raises: `RedisKillSwitch.RightExactlyFromAgreement`, whose proof holds the failing query.
- Retry-After is truncated, so a client that waits as told may be refused once more:
  `RateLimiter.AdviceSufficesExactlyWhen`, `RateLimiter.TruncatedAdviceIsTooShort`. A limit below one makes
  every limited request raise: `RateLimiter.IndexErrorExactlyWhen`.
- A timeout of the confirmation gate that fires after the answer counts the request twice:
  `ConfirmationGate.CountedOnceExactlyWithoutLateTimeouts`, `ConfirmationGate.LateTimeoutCountsTwice`. A
  chat keeps pointing to a request whose waiter was lost, by a failing send or a cancelled task:
  `ConfirmationGate.MappingsReachWaitersUnlessLost`.
- A request can be thrown out of the dictionary unanswered, and its caller is then left waiting although the
  receive loop has ended: by a close while it is open, or by an error frame for it whose error is no object,
  which ends the loop after the pop. `OpenClawConnection.WaitsAfterLoopEndsExactlyWhenDropped`,
  `OpenClawConnection.CallerLeftWaiting`, `OpenClawConnection.CallerLeftByBadResponse`. A final chat event
  that arrives before the call has registered its run is lost:
  `OpenClawConnection.CompletesExactlyOnLaterFinal`, `OpenClawConnection.EarlyFinalIsLost`.
- The two breakers differ for a threshold below one: `Breakers.AgreeExactlyWhen`, whose proof holds the
  history on which they do.
- Threads that overlap can start more runs in a day than the limit, and just so many more as
  `RateBudget.NeverFarOverBudget` says: `RateBudget.BoundIsReached`.
- The daily cap on low-risk merges is recorded but never checked by the orchestrator:
  `AutoDevPromises.LowMergeCapHoldsExactlyWhenAvailable`, `AutoDevWitnesses.LowMergeCapIsExceeded`.
- The orchestrator's diagram has REJECTED/TIMEOUT after AWAITING_APPROVAL, but a request that times out
  leaves its run waiting: `AutoDevPromises.AnswerIsTakenExactlyWhenPending`,
  `AutoDevWitnesses.TimedOutWaitIsReached`.
- "Kill switch aborts any state transition", but answers are taken while it is active:
  `AutoDevPromises.HaltedRunMovesExactlyWhenAnswered`, `AutoDevWitnesses.HaltedRunIsApproved`. Its branch
  changes finished runs too: `AutoDevPromises.FinishedRunChangesExactlyWhenKilled`,
  `AutoDevWitnesses.MergedRunIsCancelled`. And it does not clean up:
  `AutoDevPromises.CancelledHoldsWorktreeExactlyWhenKilledInFlight`,
  `AutoDevWitnesses.CancelledRunHoldsWorktree`.
- The modified files are read from the header lines of `git diff HEAD`. A created file stays untracked, and
  a changed mode, a deleted empty file and a binary patch print no such lines; a name in quotes is not read,
  and one with a space is read with a tab too many. The policy and the risk score never see such changes.
  Immutable paths are left alone exactly when none of them is to one:
  `AutoDevPromises.ImmutableIsSafeExactlyWhenUnshownIsNot`, `AutoDevWitnesses.UnshownImmutableIsApproved`.
- A merge is documented to keep the worktree and the branch for a human. The worktree is removed and nothing
  has been committed, so the branch holds the changes exactly when there are none:
  `AutoDevPromises.MergedBranchHoldsChangesExactlyWhenNone`, with any merged run of
  `AutoDevWitnesses.MergedRunIsCancelled` as an instance.

## Model

| member | source | states |
|---|---|---|
| EditDistance.Levenshtein | adapters/event_bridge.py:629-644 | the two-row program, with its swap at the top, returns the recursive edit distance; every finished row holds the distances of one prefix of the first string to all prefixes of the second |
| EditDistance.NextCell | adapters/event_bridge.py:636-643 | the cell the inner loop appends is the distance of the two longer prefixes |
| EditDistance.Identity | adapters/event_bridge.py:629-644 | the distance is zero exactly on equal strings |
| EditDistance.Symmetry | adapters/event_bridge.py:631-632 | the distance is symmetric, so the swap at the top is harmless |
| EditDistance.Triangle | adapters/event_bridge.py:629-644 | triangle inequality |
| EditDistance.Bounds | adapters/event_bridge.py:629-644 | the distance lies between the difference of the lengths and the longer length |
| EditDistance.CommonSuffix | adapters/event_bridge.py:629-644 | a common suffix never adds to the distance |
| EditDistance.PathIsNoShorter | adapters/event_bridge.py:629-644 | no chain of single-character edits is shorter than the distance |
| EditDistance.ShortestPath | adapters/event_bridge.py:629-644 | some chain of single-character edits is exactly as long as the distance |
| EditDistance.DistIsLeastEdits | adapters/event_bridge.py:629-644 | the distance is at most d exactly when at most d single-character edits suffice |
| EditDistance.StripPunctuation | adapters/event_bridge.py:611 | what is left of a word after stripping is a prefix of it, ends in no stripped character, and everything removed is one |
| EditDistance.FuzzyMatch | adapters/event_bridge.py:608-618 | a keyword matches exactly when it has at least four letters and at most two edits turn some stripped word into it |
| Glob.GlobToRegex | evaluation/self_modifier.py:32-75 | the index-driven scanner terminates and writes the pattern of the scanned nodes |
| Glob.ScanStep | evaluation/self_modifier.py:44-73 | one turn of the scanner emits the text of the node at its index and goes on right behind what it consumed, including the slash after `**` and the closing brace |
| Glob.ScanBrace | evaluation/self_modifier.py:57-67 | a brace with a match becomes a group of its escaped alternatives, one without a match a literal brace |
| Glob.CloseBrace | evaluation/self_modifier.py:58-60 | the first closing brace behind the head, and nothing exactly when there is none |
| Glob.Split | evaluation/self_modifier.py:64 | joining the parts gives the text back, and no part holds the separator |
| Glob.SplitUndoesJoin | evaluation/self_modifier.py:64 | parts without the separator come back out of their join, so there is only one way to split |
| Glob.BracesMeanOneOf | evaluation/self_modifier.py:57-67 | braces around joined alternatives, with anything behind them, mean a path exactly when some alternative is a prefix of it and the rest of the glob means what follows |
| Glob.PatternReadsBack | evaluation/self_modifier.py:41-75 | the text of the pattern, read as a regular expression, gives back exactly the scanned nodes; escaped alternatives read back unescaped |
| Glob.ReadJoined | evaluation/self_modifier.py:64-66 | joined escaped alternatives read back as the alternatives |
| Glob.ScanPreservesMeaning | evaluation/self_modifier.py:32-75 | on text without a line feed the scanned nodes match exactly what the glob means |
| Glob.WrittenMeans | evaluation/self_modifier.py:36-67 | a glob written piece by piece (text, `**` with or without its slash, `*`, `?`, braces) means exactly the paths that fall apart into one text for each piece, in order |
| Glob.CompilePreservesMeaning | evaluation/self_modifier.py:32-75 | the compiled pattern accepts a path without line feed exactly when the glob means it: `**` with its optional slash any text, `*` slash-free text, `?` one non-slash, braces one alternative |
| Glob.SegmentReadingsAgree | evaluation/self_modifier.py:36-50 | a glob in which every `**` with a slash is directly followed by a star means the same paths as under the documented reading by whole segments |
| Glob.SegmentReadingsDiffer | evaluation/self_modifier.py:36-50 | with a literal character behind it, it means a path the documented reading does not |
| Glob.FaithfulExactlyWithoutLineFeed | evaluation/self_modifier.py:74-75 | every glob in scope is compiled faithfully for a path if and only if the path has no line feed |
| Glob.StarOfOne | evaluation/self_modifier.py:46-53 | the starred nodes match exactly the texts without their excluded character |
| Glob.FnmatchIsLooser | evaluation/self_modifier.py:83-87 | for globs without `**`, braces and character classes, whatever the glob means `fnmatch` accepts, with equality on slash-free paths |
| Glob.MeansFixesSlashes | evaluation/self_modifier.py:37-38 | a glob without `**` and braces fixes the number of slashes in the paths it is documented to match |
| Glob.FnmatchCountsSlashes | evaluation/self_modifier.py:85-86 | what `fnmatch` accepts for a simple glob has at least its slashes, and is meant when it has no more |
| Glob.SimpleGlobMeansExactly | evaluation/self_modifier.py:83-87 | a simple glob means a path exactly when `fnmatch` accepts it and it has as many slashes as the glob |
| Glob.SimpleGlobFaithfulExactlyWithoutWildcards | evaluation/self_modifier.py:83-87 | such a glob keeps its documented meaning on all paths if and only if it holds no wildcard |
| SelfModifier.SelfModifier.MatchRule | evaluation/self_modifier.py:150-171 | returns the first rule of the bucket that matches and is not excluded, or nothing exactly when there is none |
| SelfModifier.SelfModifier.Check | evaluation/self_modifier.py:173-246 | the verdict says the tier, permission, matched rule and reviewers that the rules prescribe, allows exactly what a safe rule covers and no immutable or review rule does, and is recorded |
| SelfModifier.SelfModifier.CheckMany | evaluation/self_modifier.py:248-250 | one correct verdict per distinct path, one record per occurrence in order |
| SelfModifier.SelfModifier.ValidateProposal | evaluation/self_modifier.py:252-257 | true exactly when every path is allowed; checking and recording stop at the first denial |
| SelfModifier.SelfModifier.Record | evaluation/self_modifier.py:261-265 | the history is always the last thousand verdicts ever given |
| SelfModifier.AllowedExactly | evaluation/self_modifier.py:173-246 | by the meaning of the globs, a path is allowed exactly when some autonomous-safe rule means it unexcluded and no immutable or review rule does, and the tier is that of the strictest bucket that means it |
| SelfModifier.RulesOfTwoDepths | evaluation/self_modifier.py:173-246 | a policy with file rules for two directories of any depths allows every file the one is for, by the meaning of its globs |
| SelfModifier.MoreRulesNeverApprove | evaluation/self_modifier.py:173-246 | more immutable or review rules, or fewer safe ones, never turn a denial into an approval |
| SelfModifier.RuleOrderIsIrrelevant | evaluation/self_modifier.py:150-246 | the order of the rules in a bucket never changes a tier |
| SelfModifier.RuleByMeaning | evaluation/self_modifier.py:150-171 | a rule whose globs are matched by their meaning on a path applies exactly when its glob means it and none of its exclusions does |
| SelfModifier.MatchByMeaning | evaluation/self_modifier.py:83-87 | a compiled glob on a path without line feed, and a simple one that `fnmatch` does not take past a slash, is matched by its meaning |
| SelfModifier.SimpleMatchByMeaningExactly | evaluation/self_modifier.py:85-86 | for a glob without `**`, braces and character classes that is exact: it is matched by its meaning if and only if `fnmatch` does not take it past a slash |
| KillSwitch.KillSwitch.Activate | evaluation/kill_switch.py:141-169 | becomes ACTIVE with a fresh current record; no earlier record is touched; one step of the run |
| KillSwitch.KillSwitch.Drill | evaluation/kill_switch.py:171-196 | becomes DRILL with a fresh current record, whatever it was before |
| KillSwitch.KillSwitch.Deactivate | evaluation/kill_switch.py:198-223 | clears the switch and stamps the current record and no other; does nothing when inactive |
| KillSwitch.KillSwitch.AppendHistory | evaluation/kill_switch.py:259-262 | the history is always the end of everything ever recorded, at most a hundred entries |
| KillSwitch.KillSwitch.Stats | evaluation/kill_switch.py:238-249 | the dictionary holds exactly the triggers in the kept history, each with its number of occurrences |
| KillSwitch.HoldsExactlyWithoutLaterDrill | evaluation/kill_switch.py:141-196 | in every run of the switch, after an activation with no later deactivation it is active if and only if no drill follows the last activation |
| KillSwitch.StampedExactlyWhenDeactivatedNext | evaluation/kill_switch.py:141-223 | in every run each record keeps what its operation said and is stamped if and only if the very next operation is a deactivation, with that one's actor and reason |
| RedisKillSwitch.RedisKillSwitch.Activate | evaluation/kill_switch_redis.py:166-235 | key, history, availability and memory copy after every pattern of command failures |
| RedisKillSwitch.RedisKillSwitch.Deactivate | evaluation/kill_switch_redis.py:237-307 | the same for deactivation, with the stamped audit entry; returns the prior record from the backend if it can be read and holds one, else from memory; a halt key that is no object raises and clears nothing |
| RedisKillSwitch.RedisKillSwitch.IsActive | evaluation/kill_switch_redis.py:311-329 | answers from the backend while it works and from memory from its first failure on; raises on a halt key that is no object |
| RedisKillSwitch.StepKeepsAgreement | evaluation/kill_switch_redis.py:142-329 | every call keeps the two copies in agreement and moves the one flag as it should |
| RedisKillSwitch.RunRefinesFlag | evaluation/kill_switch_redis.py:142-329 | over every sequence of calls and failures both copies stand for one boolean |
| RedisKillSwitch.RightExactlyFromAgreement | evaluation/kill_switch_redis.py:311-329 | every query after every run answers the flag if and only if the copies start readable and in agreement |
| RedisKillSwitch.FlagIsLastSwitch | evaluation/kill_switch_redis.py:166-307 | the flag is set exactly when some activation comes after every deactivation |
| RedisKillSwitch.NeverAvailableAgain | evaluation/kill_switch_redis.py:142-162 | after its first failure the backend is never used again, and what it held stays |
| RedisKillSwitch.HistoryStaysCapped | evaluation/kill_switch_redis.py:201-214 | the audit list never exceeds its cap by more than the one entry a failing trim leaves |
| RedisKillSwitch.AuditIsKept | evaluation/kill_switch_redis.py:166-307 | without failures the audit list is the newest hundred of all activations and of all deactivations that ended one, each of these with the trigger, actor and reason of what it ended and its own stamp |
| RedisKillSwitch.PriorIsTheAuditEntry | evaluation/kill_switch_redis.py:237-307 | a deactivation returns just the entry it writes |
| RedisKillSwitch.BrokenRecordLeavesOnlyTheStamp | evaluation/kill_switch_redis.py:237-307 | a halt key that is no record is cleared all the same, and only the stamp goes into the audit |
| OpenClawConnection.StepKeepsReachable | adapters/openclaw_executor.py:433-603 | every step keeps each open future with a listening caller in the dictionary, unless a close dropped it |
| OpenClawConnection.WaitsAfterLoopEndsExactlyWhenDropped | adapters/openclaw_executor.py:547-561 | in every run, when a receive loop ends a caller is left waiting if and only if its open request had been thrown out by a close or an unreadable error frame and its caller has not given up since |
| OpenClawConnection.OutOfReachExactlyWhenDropped | adapters/openclaw_executor.py:563-674 | at every moment the same condition says which unanswered requests are no longer in the dictionary |
| OpenClawConnection.CallerLeftWaiting | adapters/openclaw_executor.py:660-674 | a run that leaves its caller waiting, for every request id |
| OpenClawConnection.CallerLeftByBadResponse | adapters/openclaw_executor.py:449-464 | an error frame whose error is no object leaves its caller waiting, without any close |
| OpenClawConnection.NothingPendingOnceLoopEnded | adapters/openclaw_executor.py:552-561 | once a loop has ended, and until a new connection opens, nothing is pending and nothing more is thrown out |
| OpenClawConnection.CompletesAtMostOnce | adapters/openclaw_executor.py:449-603 | a completed request future never changes again |
| OpenClawConnection.ResultIsOwnResponse | adapters/openclaw_executor.py:449-464 | a result comes from a successful response frame with the own id, received while the request was pending and open |
| OpenClawConnection.OutcomeExactlyFromItsStep | adapters/openclaw_executor.py:449-603 | in every run, what a request ends with is exactly what the step says that reached it while it was open: the payload of its own ok response, the error of its own failed one, the lost connection, or its cancellation |
| OpenClawConnection.ResponseIsDelivered | adapters/openclaw_executor.py:449-464 | a response with the id of a pending open request completes it, in the end, with the payload when it is ok and with the error when it is not |
| OpenClawConnection.LeavesEntryOnlyWhenCancelled | adapters/openclaw_executor.py:588-603 | a caller that has gone leaves an entry in the dictionary only if its task was cancelled |
| OpenClawConnection.ConnectedExactlyWhenUp | adapters/openclaw_executor.py:287-674 | the connection flag is set exactly when a socket has come up and no failed set-up, ended loop or close has come since |
| OpenClawConnection.ChatsResolveOnceAndOwn | adapters/openclaw_executor.py:519-541 | a chat call resolves at most once and only with a final event of its own run |
| OpenClawConnection.CompletesExactlyOnLaterFinal | adapters/openclaw_executor.py:519-658 | undisturbed, a registered chat call completes if and only if a final event of its run arrives after the registration |
| OpenClawConnection.EarlyFinalIsLost | adapters/openclaw_executor.py:519-541 | a final event that comes before the registration leaves the call waiting |
| OpenClawConnection.DeliversLastText | adapters/openclaw_executor.py:508-535 | the completion carries the last text streamed for the run |
| OpenClawConnection.DeliversExactlyWhatWasStreamed | adapters/openclaw_executor.py:496-541 | the text of a completion is the last one streamed for its run, or none if nothing was, and nothing is left over for a later completion |
| OpenClawConnection.TimedOutCallIsGone | adapters/openclaw_executor.py:640-658 | a call that times out without a final event is cancelled for good and leaves no entry |
| OpenClawConnection.OpenClawConnection.StartRequest | adapters/openclaw_executor.py:570-586 | a request registers a fresh future under its id; without a connection it raises and changes nothing |
| OpenClawConnection.OpenClawConnection.OnResponse | adapters/openclaw_executor.py:449-464 | a readable response pops its own request and completes it unless it is done |
| OpenClawConnection.OpenClawConnection.OnBadResponse | adapters/openclaw_executor.py:449-464 | an error that is no object: the request is popped, and if it is open the loop ends, failing all the others |
| OpenClawConnection.OpenClawConnection.OnCallerCancelled | adapters/openclaw_executor.py:588-603 | a cancelled caller leaves its entry in the dictionary |
| OpenClawConnection.OpenClawConnection.Abandon | adapters/openclaw_executor.py:595-603 | leaving by an exception removes the own entry and nothing else |
| OpenClawConnection.OpenClawConnection.OnResult | adapters/openclaw_executor.py:593-594 | returns the result of the own response |
| OpenClawConnection.OpenClawConnection.EndLoop | adapters/openclaw_executor.py:552-561 | fails every open request and empties the dictionary |
| OpenClawConnection.ChatCompletions.RegisterCall | adapters/openclaw_executor.py:636-639 | a chat call registers its future under its run id |
| OpenClawConnection.ChatCompletions.OnAgentText | adapters/openclaw_executor.py:496-517 | collects the streamed text of a run |
| OpenClawConnection.ChatCompletions.OnFinal | adapters/openclaw_executor.py:519-541 | pops the call of the run and answers it, with the last text, unless it is done |
| Breakers.CircuitBreaker.IsClosed | adapters/openclaw_executor.py:181-191 | answers and takes the lazy step from OPEN to HALF_OPEN |
| Breakers.CircuitBreaker.RecordFailure | adapters/openclaw_executor.py:197-205 | one failure step of the state machine |
| Breakers.StateTellsHistory | adapters/openclaw_executor.py:181-205 | with a threshold of at least one, CLOSED means a failure run below it and HALF_OPEN that the timeout was seen to end |
| Breakers.CountersTellHistory | adapters/openclaw_executor.py:193-205 | the counters of both breakers are the failure run and the last failure of the history |
| Breakers.BreakersAgree | adapters/openclaw_executor.py:181-205 | after every history with a monotone clock the two breakers and the history give the same answer |
| Breakers.AgreeExactlyWhen | adapters/multi_llm_planner.py:35-71 | the two breakers agree on all histories if and only if the threshold is at least one or the timeout is not positive |
| Breakers.ProviderHealth.RecordSuccess | adapters/multi_llm_planner.py:60-64 | one success step, with the totals |
| Breakers.ProviderHealth.RecordFailure | adapters/multi_llm_planner.py:66-71 | one failure step, with the totals |
| LlmPlanner.InsertKeepsOrder | adapters/multi_llm_planner.py:108-109 | registering keeps the list in priority order with ties in order of registration |
| LlmPlanner.MultiLLMPlanner.AddProvider | adapters/multi_llm_planner.py:98-114 | the provider goes behind everything of its priority or lower, with a fresh health record |
| LlmPlanner.Failover | adapters/multi_llm_planner.py:139-190 | the chain is every provider in turn, skipped, failed or succeeded, up to the first success; only providers asked are recorded |
| LlmPlanner.EntryTellsTurn | adapters/multi_llm_planner.py:139-190 | over any number of plans a provider is listed as skipped exactly while it cools down from at least the maximum of failed turns in a row, with their number, and otherwise as failed exactly when its call gives an error, with that error |
| LlmPlanner.HealthTellsEntries | adapters/multi_llm_planner.py:139-190 | its health record is the run of failed entries since the last success and the end of the last failed call |
| LlmPlanner.LastErrorIsOfLastFailed | adapters/multi_llm_planner.py:180-209 | the error in the emergency plan is that of the last failed entry |
| LlmPlanner.MultiLLMPlanner.CreatePlan | adapters/multi_llm_planner.py:134-209 | returns the plan of the first provider that is healthy at its turn and does not fail, failover exactly when it is not the first; the emergency plan exactly when none delivers; each entry and each health record is told by health, reply and time |
| ConfirmationGate.StepConserves | adapters/confirmation_gate.py:180-303 | every step keeps the law of the five counters |
| ConfirmationGate.RunConserves | adapters/confirmation_gate.py:164-303 | in every interleaving the counters add up and every chat mapping points to a listed request of that chat |
| ConfirmationGate.MappingsReachWaitersUnlessLost | adapters/confirmation_gate.py:201-243 | somebody waits for the request a chat points to if and only if its waiter was not lost, by a failing send or a cancelled task |
| ConfirmationGate.ChatPointsToLastAsked | adapters/confirmation_gate.py:198-303 | in every run a chat points to the last question asked in it exactly as long as that is listed, and to no other |
| ConfirmationGate.StatusIsTheReply | adapters/confirmation_gate.py:245-294 | in every run a listed request is approved exactly when an approval from its own chat came while it was pending and the last one asked there, and rejected exactly when a refusal did |
| ConfirmationGate.WakesWithTheReply | adapters/confirmation_gate.py:241-243 | what a waiter gets is the one reply given to its request |
| ConfirmationGate.CountersTellRun | adapters/confirmation_gate.py:164-303 | each of the five counters is the number of the steps it is named after |
| ConfirmationGate.CountedOnceExactlyWithoutLateTimeouts | adapters/confirmation_gate.py:224-243 | requests equal auto-approved plus approved plus rejected plus timed out plus unanswered if and only if no timeout fired on an answered request |
| ConfirmationGate.LateTimeoutCountsTwice | adapters/confirmation_gate.py:226-232 | the run that counts one request as approved and as timed out |
| ConfirmationGate.LateCounts | adapters/confirmation_gate.py:224-232 | the number of late timeouts never falls and stays the same exactly when none fires |
| ConfirmationGate.AnswerStays | adapters/confirmation_gate.py:245-294 | an answer is there until its waiter has woken up; no request is settled twice |
| ConfirmationGate.OrphanCanOnlyTimeOut | adapters/confirmation_gate.py:198-199 | a request whose chat has been taken over by a later one can only time out |
| ConfirmationGate.ConfirmationGate.RequestConfirmation | adapters/confirmation_gate.py:180-199 | counts the request and answers at once, or registers it under its task and chat |
| ConfirmationGate.ConfirmationGate.HandleResponse | adapters/confirmation_gate.py:245-294 | settles the pending request of the chat, if there is one, and says whether there was |
| ConfirmationGate.ConfirmationGate.OnTimeout | adapters/confirmation_gate.py:227-239 | counts the timeout and cleans up |
| ConfirmationGate.ConfirmationGate.OnWake | adapters/confirmation_gate.py:241-243 | returns the answer given and cleans up |
| ConfirmationGate.ConfirmationGate.CleanUp | adapters/confirmation_gate.py:300-303 | removes the task, and the chat mapping only if it is still its own |
| RateLimiter.NeverOverLimit | api/middleware.py:140-165 | at every instant at most the limit was accepted in the window before it |
| RateLimiter.PrunedListSuffices | api/middleware.py:144-164 | the pruned list decides as the complete accepted history would, and goes on agreeing with it in every later window |
| RateLimiter.AllRefusedUntilOldestLeaves | api/middleware.py:144-165 | after a refusal no request is accepted before the oldest hit leaves the window, however many are made |
| RateLimiter.NextAcceptedExactlyWhenOldestLeft | api/middleware.py:144-165 | whatever was asked in between, the next request gets through if and only if it comes no earlier than the oldest hit plus the window |
| RateLimiter.AdviceWithinASecond | api/middleware.py:149-161 | the advertised wait is positive and within one second of the true one |
| RateLimiter.AdviceIsCloseToTrueWait | api/middleware.py:144-161 | what a refusal advertises is at least a second and within one second of the wait after which, and not before which, a request gets through |
| RateLimiter.AdviceSufficesExactlyWhen | api/middleware.py:149-161 | a client that waits as advertised is accepted if and only if the true wait is whole seconds or at most one |
| RateLimiter.TruncatedAdviceIsTooShort | api/middleware.py:149-161 | a client told one second where one and a half are due is refused again after waiting as told |
| RateLimiter.IndexErrorExactlyWhen | api/middleware.py:148-149 | the empty list is indexed if and only if the limit is below one |
| RateLimiter.RateLimitMiddleware.Dispatch | api/middleware.py:134-165 | the answer depends only on the complete accepted history of the client; other clients and other paths are not touched |
| MarkdownEscape.EscapeMd | adapters/voice_handler.py:820-824 | the five passes equal one character-by-character pass |
| MarkdownEscape.OneMorePass | adapters/voice_handler.py:822-823 | one more pass over a text escaped so far escapes one more character |
| MarkdownEscape.RoundTrip | adapters/voice_handler.py:820-824 | unescaping undoes escaping |
| MarkdownEscape.Injective | adapters/voice_handler.py:820-824 | different texts never escape to the same text |
| Histogram.LabelOrderIsIrrelevant | observability/metrics_collector.py:65-69 | two label lists have the same key if and only if they hold the same labels |
| Histogram.KeyIsSorted | observability/metrics_collector.py:65-69 | the key is sorted by name, then value |
| Histogram.Histogram.Observe | observability/metrics_collector.py:112-121 | after any observations every label set has, per bucket, the number of its values at or below the bound, with total and sum |
| Histogram.Histogram.Bump | observability/metrics_collector.py:116-119 | exactly the buckets whose bound the value does not exceed, and the last one, get one more |
| Histogram.StepTells | observability/metrics_collector.py:112-121 | one observation keeps all label sets right |
| Histogram.BucketsAreCumulative | observability/metrics_collector.py:112-121 | over sorted bounds the counts never decrease and the last is the number of observations |
| VerificationGate.Verify | autodev/verification_gate.py:108-185 | the stages in order, each with its verdict, stopping after a hard failure of the first two |
| VerificationGate.PassedExactlyWhenAllThreeDo | autodev/verification_gate.py:65-67 | a report passes if and only if lint came out well or no Python file has changed, the tests did or there are none, and the regression run did or was not to be made |
| VerificationGate.StopsAtFirstHardFailure | autodev/verification_gate.py:108-185 | the stages listed are the first three in order up to the first hard failure of lint or the tests |
| ResidualRisk.Assess | autodev/residual_risk.py:91-220 | score, level, recommendation and factors are those of the change, whatever the order of the accumulation |
| ResidualRisk.SensitiveHits | autodev/residual_risk.py:181-187 | the hits are exactly the paths that contain a sensitive part |
| ResidualRisk.PointsAreRawScore | autodev/residual_risk.py:99-196 | the accumulated points are the closed formula of the score |
| ResidualRisk.AutoMergeExactlyWhen | autodev/residual_risk.py:198-213 | auto-merge if and only if verification did not fail, no path is immutable, under review or sensitive, the diff is not large, and unknown paths plus 1.5 for many files stay below two |
| ResidualRisk.LevelExactlyWhen | autodev/residual_risk.py:198-213 | each level and recommendation, from the change itself: critical and rejected for a failed verification, an immutable path or eight points of the rest; high from five, medium from two |
| ResidualRisk.ListedExactlyWhenApplies | autodev/residual_risk.py:99-196 | a factor is listed exactly when its category applies, with its weight |
| ResidualRisk.ContainsExactly | autodev/residual_risk.py:181-187 | a path counts as containing a sensitive part exactly when that occurs somewhere in it |
| ResidualRisk.ImmutableOrFailedIsRejected | autodev/residual_risk.py:102-137 | a failed verification or one immutable path rejects, whatever else |
| ResidualRisk.ScoreGrowsWithPaths | autodev/residual_risk.py:116-199 | more paths never lower the score |
| ResidualRisk.ScoreIgnoresOrder | autodev/residual_risk.py:116-199 | the score does not depend on the order of the paths |
| ResidualRisk.RulesCanLowerTheScore | autodev/residual_risk.py:149-157 | a new autonomous-safe rule can lower the score, by exactly the point of an unknown path |
| ApprovalQueue.ApprovalQueue.Submit | autodev/approval_queue.py:108-163 | a duplicate id is refused and changes nothing; otherwise the request is in the queue, approved at once exactly at low risk |
| ApprovalQueue.ApprovalQueue.Resolve | autodev/approval_queue.py:180-207 | only a known pending request is resolved; otherwise nothing changes |
| ApprovalQueue.ApprovalQueue.CleanupExpired | autodev/approval_queue.py:210-226 | times out exactly the expired pending requests and returns their number |
| ApprovalQueue.DecisionsAreFinal | autodev/approval_queue.py:180-226 | in every run a terminal request never changes and no request is forgotten |
| ApprovalQueue.FirstDecisionCounts | autodev/approval_queue.py:180-226 | in every run a pending request is approved, rejected or timed out exactly when the first operation that could decide it (an answer, or a clean-up at or after its expiry) says so |
| ApprovalQueue.AutoApprovedExactlyLow | autodev/approval_queue.py:149-154 | in every run a request is auto-approved if and only if its risk is low |
| RateBudget.RateBudgetTracker.CheckCan | autodev/rate_budget_tracker.py:95-130 | rolls over and says whether the counter of the day is below its limit |
| RateBudget.RateBudgetTracker.RecordOne | autodev/rate_budget_tracker.py:146-159 | rolls over and counts one more of the kind |
| RateBudget.StepKeepsBudget | autodev/rate_budget_tracker.py:83-159 | a check or a record of any of k threads, also across midnight, keeps the bound |
| RateBudget.NeverFarOverBudget | autodev/rate_budget_tracker.py:83-159 | with k threads interleaving checks and records no day sees more than the limit plus k - 1 |
| RateBudget.DailyCap | autodev/rate_budget_tracker.py:83-159 | the same of the log alone, from a fresh tracker; with one thread never more than the limit |
| RateBudget.BoundIsReached | autodev/rate_budget_tracker.py:95-149 | the bound is tight: with one run left, k threads that all check and then all record put exactly the limit plus k - 1 runs into the log of the day |
| SandboxWorktree.SandboxWorktree.Create | autodev/sandbox_worktree.py:197-242 | an id already active is refused; otherwise the new handle is the one kept under the id |
| SandboxWorktree.SandboxWorktree.CaptureDiff | autodev/sandbox_worktree.py:251-272 | stores the files read from the diff in a live handle; an unknown or cleaned-up id is refused |
| SandboxWorktree.SandboxWorktree.Cleanup | autodev/sandbox_worktree.py:275-314 | marks the handle and deletes the branch unless it is to be kept, the first time only |
| SandboxWorktree.CleanupIsIdempotent | autodev/sandbox_worktree.py:275-282 | cleaning up again changes nothing |
| AutoDevPromises.ApprovedIsVetted | autodev/orchestrator.py:242-434 | in every run of calls, expiries and kill-switch flips, a run that is approved, merging or merged has a passing report, a recommendation other than reject and a request approved by a human, or by the queue at low risk |
| AutoDevPromises.ApprovedTouchesNothingImmutable | autodev/orchestrator.py:280-334 | the captured diff of no such run shows an immutable file; of one approved without a human nothing under review or sensitive |
| AutoDevPromises.ImmutableIsSafeExactlyWhenUnshownIsNot | autodev/orchestrator.py:280-334 | an approved run leaves every immutable path alone if and only if none of its changes that the diff does not show is to one |
| WorktreeDiff.CapturedExactly | autodev/sandbox_worktree.py:251-272 | the captured files are exactly the names read from the headers of text edits and deletions and from look-alike lines of a body |
| WorktreeDiff.ShownIsCaptured | autodev/sandbox_worktree.py:251-272 | a text edit or deletion under a plain name is captured |
| WorktreeDiff.SilentIsNotCaptured | autodev/sandbox_worktree.py:251-272 | a created, mode-only, binary, emptily deleted or quoted change gives no captured file |
| WorktreeDiff.ParseModifiedFiles | autodev/sandbox_worktree.py:263-272 | every name read from a header line, once and in order |
| WorktreeDiff.FilesAreTheNamed | autodev/sandbox_worktree.py:263-272 | the modified files are sorted and are exactly the names read |
| AutoDevWitnesses.UnshownImmutableIsApproved | autodev/orchestrator.py:280-363 | for every policy, every change of which nothing is captured and every diff of at most 200 lines: a run that makes it to an immutable path and is approved without a human |
| AutoDevPromises.LogIsConnectedPath | autodev/orchestrator.py:105-115 | the transition log is a connected path of permitted edges ending in the current state, with at most seven entries of its own; only the kill switch leads out of a terminal state, and only to CANCELLED |
| AutoDevPromises.BuildNeverMeetsOldIds | autodev/orchestrator.py:255-357 | with unique run ids a build meets no old worktree or request and never raises |
| AutoDevPromises.EndedRunsHoldNoWorktree | autodev/orchestrator.py:255-434 | a failed or rejected run has no worktree or one cleaned up together with its branch; the branch of a merged run is not deleted |
| AutoDevPromises.MergedBranchHoldsChangesExactlyWhenNone | autodev/orchestrator.py:395-434 | the changes are there for a human until the merge; the branch kept by it holds them if and only if there are none |
| AutoDevPromises.CancelledHoldsWorktreeExactlyWhenKilledInFlight | autodev/orchestrator.py:248-253 | a cancelled run still holds a live worktree if and only if the kill switch hit it while it awaited an answer or its merge |
| AutoDevWitnesses.CancelledRunHoldsWorktree | autodev/orchestrator.py:403-408 | a run that ends cancelled with a live worktree |
| AutoDevPromises.CheckedCapsHold | autodev/orchestrator.py:221-235 | with calls one at a time the counters of runs and of medium and higher proposals never pass their caps |
| AutoDevPromises.ProposalsOfADayKeepTheCap | autodev/orchestrator.py:221-235 | with a clock that never goes back no day sees more successful proposals than the cap |
| AutoDevOutcomes.EntriesAreCounted | autodev/orchestrator.py:338-346 | with a clock that never goes back the medium-plus counter is the number of the day's builds that left their run awaiting approval |
| AutoDevOutcomes.ReviewsOfADayKeepTheCap | autodev/orchestrator.py:338-346 | no day sends more builds to a human than the cap on medium and higher proposals |
| AutoDevOutcomes.RejectedExactlyWhenDayIsFull | autodev/orchestrator.py:338-370 | in every run a reviewable build of more than low risk goes to a human exactly when fewer than the cap have gone there that day, and is rejected otherwise |
| AutoDevPromises.LowMergeCapHoldsExactlyWhenAvailable | autodev/orchestrator.py:423-428 | in every run the cap on low-risk merges holds at every moment if and only if a check before each of the merges would have passed |
| AutoDevPromises.LowCapStep | autodev/orchestrator.py:395-434 | one call keeps the cap exactly when it is no low-risk merge or the merge was available |
| AutoDevWitnesses.LowMergeCapIsExceeded | autodev/orchestrator.py:423-428 | for all limits with more runs than low-risk merges a day, a run that exceeds the cap |
| AutoDevPromises.AnswerIsTakenExactlyWhenPending | autodev/orchestrator.py:372-393 | an answer to a waiting run is taken if and only if its request is pending, and refused only when that has timed out |
| AutoDevPromises.TimedOutRunIsStuck | autodev/orchestrator.py:372-393 | a run whose request timed out waits, refusing answers, until it is cancelled |
| AutoDevWitnesses.TimedOutWaitIsReached | autodev/orchestrator.py:365-378 | a run that waits on a request that has timed out |
| AutoDevPromises.HaltedRunMovesExactlyWhenAnswered | autodev/orchestrator.py:372-393 | while the kill switch is active a run gets to another state than CANCELLED if and only if its pending request is answered |
| AutoDevPromises.FinishedRunChangesExactlyWhenKilled | autodev/orchestrator.py:248-253 | a finished run changes if and only if it is built or merged while the kill switch is active, and then to CANCELLED |
| AutoDevPromises.NothingMovesForwardWhileHalted | autodev/orchestrator.py:198-253 | over any calls while the kill switch is active nothing is proposed, built or merged and no budget is used |
| AutoDevWitnesses.HaltedRunIsApproved | autodev/orchestrator.py:372-386 | a run approved while the kill switch is active |
| AutoDevWitnesses.MergedRunIsCancelled | autodev/orchestrator.py:403-408 | a merged run that becomes cancelled |
| AutoDevOutcomes.BuildEndsExactly | autodev/orchestrator.py:242-370 | from every reached world: whether a build ends failed, rejected, approved or awaiting approval, from what the outside did, the assessment and the room in the budget; what the run keeps of it, and what the request says |
| AutoDevOutcomes.ProposalSucceedsExactlyWhen | autodev/orchestrator.py:198-240 | a proposal succeeds exactly when the kill switch is off, the diff is not blank and the day has runs left; only the new run and the budget change |
| AutoDevOutcomes.AnswerSettlesBoth | autodev/orchestrator.py:372-393 | an answer to a pending request settles run and request alike; a refusal cleans up worktree and branch |
| AutoDevOutcomes.CancelEndsUnfinished | autodev/orchestrator.py:436-445 | a cancellation ends every unfinished run in CANCELLED, with worktree and branch cleaned up |
| AutoDevOutcomes.MergeEndsApproved | autodev/orchestrator.py:395-434 | a merge ends every approved run in MERGED with its branch named and kept, and counts it exactly when it is of low risk |
| AutoDevOutcomes.HaltedCallCancels | autodev/orchestrator.py:248-253 | while the kill switch is active a build or a merge cancels its run and touches nothing else |
| AutoDevOutcomes.MisplacedCallsChangeNothing | autodev/orchestrator.py:242-445 | a call that does not find its run, or finds it in another state than it asks for, changes nothing at all |
| AutoDevOutcomes.OtherRunsStay | autodev/orchestrator.py:184-445 | no call touches the run, the request or the worktree of another run |
| AutoDevSafety.ExecutedIsOk | autodev/orchestrator.py:261-370 | a build from a good run keeps its invariant on every path, raises nothing and touches only the run's own request and worktree |
| AutoDevSafety.DeskStepKeepsGood | autodev/orchestrator.py:242-445 | a step on one run, its request and its worktree keeps the invariant of all the others |
| AutoDevSafety.StepKeepsGood | autodev/orchestrator.py:184-445 | every call keeps the invariant of the whole pipeline |
| AutoDevSafety.RunKeepsGood | autodev/orchestrator.py:184-445 | every run of calls keeps it |
| AutoDevOrchestrator.AutoDevRun.RecordTransition | autodev/orchestrator.py:105-115 | appends the edge from the current state and moves there |
| AutoDevOrchestrator.BuildPhase | autodev/orchestrator.py:261-291 | worktree, diff and modified files, with a clean-up on every failure after the worktree exists |
| AutoDevOrchestrator.VerifyPhase | autodev/orchestrator.py:292-324 | report and assessment as the two components make them; failure cleans up |
| AutoDevOrchestrator.DecidePhase | autodev/orchestrator.py:326-370 | rejection by risk or budget, or a new request and the state it gives the run |
| AutoDevOrchestrator.DescribedIsAllowed | autodev/orchestrator.py:292-317 | what the objects hand on in a build is what the theorems over runs assume |
| AutoDevOrchestrator.AutoDevOrchestrator.Propose | autodev/orchestrator.py:184-240 | one proposal step: kill switch, empty diff, budget, new run |
| AutoDevOrchestrator.AutoDevOrchestrator.ExecuteBuildAndVerify | autodev/orchestrator.py:242-370 | one build step of the pipeline, over shared runs, handles and requests |
| AutoDevOrchestrator.AutoDevOrchestrator.ResolveApproval | autodev/orchestrator.py:372-393 | one answer step |
| AutoDevOrchestrator.AutoDevOrchestrator.FinalizeMerge | autodev/orchestrator.py:395-434 | one merge step |
| AutoDevOrchestrator.AutoDevOrchestrator.Cancel | autodev/orchestrator.py:436-445 | one cancellation step; a finished run is left alone |

## Left out

- LlmPlanner.MultiLLMPlanner.CreatePlan: providers have distinct names; two providers of one name would share a health record.
- LlmPlanner.MultiLLMPlanner.AddProvider: the append and the stable sort are modelled by their result, an insertion at the stable place.
- ConfirmationGate.ConfirmationGate.HandleResponse: whether a text is an approval keyword is a parameter; its normalisation is not modelled.
- RateLimiter.RateLimitMiddleware.Dispatch: the client key is a parameter; X-Forwarded-For is not parsed.
- Glob.CompilePreservesMeaning: `[` and `\` outside braces reach the regular expression unescaped, and patterns with them are not read back; `Glob.GlobMatch` takes such a glob with `**` or braces to match nothing, and one without to have no character classes.
- AutoDevOrchestrator.AutoDevOrchestrator.Propose: the run id, whether the diff is blank and its number of lines are parameters; reasons, titles and error texts are not kept.
- SandboxWorktree.SandboxWorktree.CaptureDiff: git prints the diff with its default settings (prefixes, quoting), and the escapes inside a quoted name are not spelled out. Cleaning up is taken never to raise.
- ResidualRisk.Assess: the reason texts of the factors are not kept.
- OpenClawConnection.ChatCompletions.OnFinal: the chat half of the connection is a class of its own; the request a chat call makes first is the request half's. Chat calls are not failed when the receive loop ends, only by their own timeout. Streamed texts are strings.
- The orchestrator's calls are atomic steps; its lock and overlapping calls are modelled only for the budget, in `RateBudget`.
- Scores, durations and times are reals, not floating-point numbers; clocks are arguments and never go back.
- The rest of intent matching: direct prefixes, exact and accent-free substrings.
- `check_compute_available` and `record_compute_seconds`: no caller in the pipeline uses compute seconds.
- `cleanup_all`, listings, lookups and the other statistics: they read or repeat what the modelled methods do.
- Network and process work: WebSocket authentication, reconnection and its back-off, event callbacks, git, lint and pytest, Telegram, the approval store.
- LLM prompts and text scraping, signatures, tokens, encryption, logging and metrics emission.
