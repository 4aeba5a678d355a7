# A verified model of vLLMux

vLLMux is a control plane and a request router for fleets of LLM servers. This project models
the parts of it that hold its logic together and proves what they promise:

| file | what it models |
|---|---|
| `LeaderLease.dfy` | replicas that elect a leader over one lease row |
| `EvalQueue.dfy` | the FIFO admission queue of evaluation runs |
| `Failover.dfy`, `FailoverBounds.dfy`, `RouteChain.dfy` | the router's retry loop over instances and fallback groups |
| `InflightAccounting.dfy` | the in-flight counters under any number of interleaved requests |
| `Routing.dfy`, `RoutingChoices.dfy` | the instance filters and the routing strategies, and what each picks |
| `SseScanner.dfy` | sniffing token usage out of a chunked event stream |
| `Cli.dfy`, `CliLookup.dfy`, `VllmCommand.dfy`, `VllmRoundTrip.dfy`, `SglangCommand.dfy`, `SglangRoundTrip.dfy` | printing launch commands, parsing them, and what survives the trip |
| `CommandTokens.dfy`, `FlagTokens.dfy` | what a printed command and a parsed one say, token by token, without the printers and parsers |
| `Autoscaler.dfy` | the autoscaling policy and the loop it closes with the instances |
| `Placement.dfy`, `PlacementProtocol.dfy` | which node runs an instance, and the passes that act on it |
| `RestartBudget.dfy` | crash recovery: budget, backoff and alerts |
| `OverlayMerge.dfy` | layering user-added models onto the configuration, in backend and router |
| `RateLimiter.dfy` | the sliding-window request limiter |
| `Scoring.dfy` | grouping, batching and ranking for the cross-encoder |
| `Codecs.dfy` | number and JSON texts that keep the laws the round trips ask for |
| `Dicts.dfy`, `Ordering.dfy`, `Sequences.dfy`, `Options.dfy` | insertion-ordered dicts, the order of strings, facts about sequences, optional values |

Objects that the program updates in place are classes whose methods are proved equal to a
function of the old state; where coroutines, replicas or requests interleave, that function is
one step of a `World`, and what is claimed holds after every admissible sequence of events.

## What does not hold as one might expect

Each of these is stated with the exact condition, and with inputs that meet it.

* The lease is safe if and only if the heartbeat deadline plus the clock skew fit into the time
  to live (`LeaderLease.MutualExclusionExactly`, `LeaderLease.NarrowMarginIsUnsafe`).
* Cancelling the run at the head of the evaluation queue does not pump, so the next run may be
  left waiting although it fits: exactly if nothing else is under way by then
  (`EvalQueue.StepKeepsHeadWaitsExactly`, `EvalQueue.CancellingTheHeadMayStrand`).
* A 5xx response that was closed for a retry survives as the answer if the last group then has
  no instance left to pick; as an event stream it takes an in-flight count it does not own
  (`InflightAccounting.CountersStayExactExactly`, `InflightAccounting.ALeftOverStreamUndercounts`).
* A fallback named by an adapter of a group the chain leads to anyway doubles that group
  (`RouteChain.ChainIsDistinctExactly`, `RouteChain.AFallbackToItsOwnAdapterDoubles`).
* A vLLM command loses `--served-model-name`, and `enable_lora` with an explicit null
  `max_loras` prints a default the second time (`VllmRoundTrip.RoundTripExactly`,
  `VllmRoundTrip.LossyCommandsExist`). An SGLang command loses a served name that differs from
  the model (`SglangRoundTrip.RoundTripExactly`, `SglangRoundTrip.LossyCommandsExist`). Both
  print the instance's address into the configuration if it was not there.
* `min_warm` is not kept by a group that cannot sleep (`Autoscaler.MinWarmIsKeptExactly`,
  `Autoscaler.MinWarmIsUndercut`), and a negative `min_ready` makes the policy take the last
  element of an empty list (`Autoscaler.RaisesExactly`).
* An automatic restart that a pre-flight check refuses leaves the instance failed with nothing
  armed, and nobody is told that it was given up (`RestartBudget.GivenUpExactly`,
  `RestartBudget.ARefusedRestartGivesUpSilently`).
* An agent that cannot read the live nodes takes every key for its own
  (`PlacementProtocol.UnreadNodesAreHarmlessExactly`).
* Layering an overlay twice adds an empty instance list to a new group that had none
  (`OverlayMerge.MergeIsIdempotentExactly`, `OverlayMerge.AGroupWithoutInstancesIsNotIdempotent`).

## Model

| member | source | states |
|---|---|---|
| LeaderLease.LeaseTable.Upsert | packages/llmops-store/llmops_store.py:741-748 | the conditional upsert overwrites a row only if it is free, expired or the holder's own, and touches no other lease |
| LeaderLease.LeaseTable.ReleaseLeader | packages/llmops-store/llmops_store.py:755-761 | a release deletes only the holder's own row, and says whether it did |
| LeaderLease.LeaseTable.TryAcquireLeader | packages/llmops-store/llmops_store.py:732-753 | an uninterrupted call writes now + ttl if and only if the lease was free, expired or its own, leaves it otherwise, and succeeds if and only if it wrote and the ttl is positive |
| LeaderLease.LeaderElector.Apply | apps/backend/app/core/leader.py:58-64 | the flag follows the answer: gained, kept or lost |
| LeaderLease.LeaderElector.Fault | apps/backend/app/core/leader.py:52-57 | a store failure counts as not leading |
| LeaderLease.LeaderElector.Stop | apps/backend/app/core/leader.py:69-83 | on the way out the flag goes down before the row does |
| LeaderLease.RunElector | apps/backend/app/core/leader.py:40-83 | whatever the heartbeats met, a store failing before or after the upsert included, an elector ends not leading, and leaves no row in its name unless the release itself failed |
| LeaderLease.StepKeepsInv | packages/llmops-store/llmops_store.py:732-761 | every single statement of any replica, with others acting between the upsert and the read-back, keeps: a leader's row is its own, unexpired by its last check plus ttl, and it is within its deadline |
| LeaderLease.WriteSparesLeader | packages/llmops-store/llmops_store.py:741-748 | no other replica's upsert can take the row of a leader that is within its deadline |
| LeaderLease.RunKeepsInv | apps/backend/app/core/leader.py:40-83 | the invariant holds after every interleaving of N electors, clock ticks, faults, stops and crashes |
| LeaderLease.MutualExclusionExactly | packages/llmops-store/llmops_store.py:732-753 | at most one replica leads in every run if and only if deadline + skew <= ttl |
| LeaderLease.NarrowMarginIsUnsafe | packages/llmops-store/llmops_store.py:732-753 | with a narrower margin a run with two leaders exists |
| LeaderLease.WriterKeepsRow | packages/llmops-store/llmops_store.py:741-753 | once a check has written past the expiry, nothing the others do before the new lease ends takes the row from it |
| LeaderLease.FirstCheckPastExpiryWins | packages/llmops-store/llmops_store.py:732-753 | after a crash or lapse, the first check that writes past the expiry reads itself back as leader, and nobody else leads |
| EvalQueue.EvalManager.UsedBudget | apps/backend/app/eval/manager.py:59-62 | the sum of the batch sizes of the runs that have a process |
| EvalQueue.EvalManager.Enqueue | apps/backend/app/eval/manager.py:181-183 | a new run waits at the end, with its request and batch size on the books |
| EvalQueue.EvalManager.Turn | apps/backend/app/eval/manager.py:193-225 | one turn leaves the queue if and only if it is empty, a load test is on, or something runs and the running sizes plus the head's exceed the budget; otherwise the head is launched, or dropped if it is no longer pending |
| EvalQueue.EvalManager.Pump | apps/backend/app/eval/manager.py:188-199 | the uninterrupted loop takes a prefix of the queue and stops only at an empty queue, a load test, or a head that overflows the budget beside what runs |
| EvalQueue.TurnLeavesExactly | apps/backend/app/eval/manager.py:193-199 | the same of one step of the interleaved pump, with the running sizes summed up |
| EvalQueue.PumpLaunchesPrefix | apps/backend/app/eval/manager.py:188-199 | an uninterrupted pump launches a prefix of the queue, in order, and stops only where it has to |
| EvalQueue.EvalManager.WatchExit | apps/backend/app/eval/manager.py:243-251 | a finished run leaves the processes, the batch sizes and the cancelled set |
| EvalQueue.EvalManager.Cancel | apps/backend/app/eval/manager.py:298-311 | a queued run vanishes from queue, requests and sizes; a running one is marked; the answer says whether it was either |
| EvalQueue.PerfManager.Begin | apps/backend/app/perf/manager.py:278-279 | the load test owns the machine from the moment its process exists |
| EvalQueue.PerfManager.WatchExit | apps/backend/app/perf/manager.py:297-306 | the load test's end frees the machine, and pumps if nobody took over |
| EvalQueue.StepKeepsBooks | apps/backend/app/eval/manager.py:168-311 | every step keeps: launched then queued runs are the arrivals without those cancelled in the queue, in order; queued, running and finished are disjoint; the request keys are the queued runs and the size keys the queued and running ones |
| EvalQueue.StepKeepsBudget | apps/backend/app/eval/manager.py:188-199 | every step that does not lower the budget keeps: running sizes sum to at most the budget, or exactly one run is running |
| EvalQueue.StepKeepsMoving | apps/backend/app/eval/manager.py:188-270 | queued work implies a pump under way, a run running or finishing, or a load test |
| EvalQueue.StepKeepsHeadWaitsExactly | apps/backend/app/eval/manager.py:188-311 | a step leaves a run that fits waiting with nothing under way if and only if it cancels the head, the next run fits, and no pump, start, finish or load test is under way |
| EvalQueue.CancellingTheHeadMayStrand | apps/backend/app/eval/manager.py:298-305 | for every budget and any three runs of which the second does not fit beside the first and the third does, a run of nine events after which the third waits and nothing is under way |
| EvalQueue.LaunchRule | apps/backend/app/eval/manager.py:193-199 | a launch takes the head, never while a load test is on, and only if nothing runs or it fits |
| EvalQueue.QueueInvariant | apps/backend/app/eval/manager.py:168-311 | order, books and progress after every run from an empty manager, the budget if nobody lowered it, and that the head never waits for nothing, throughout a run, if and only if no cancellation in it strands a run |
| Failover.BackendState.Incr | apps/router-server/src/llm_router/backend_runtime_state.py:16-18 | the counter of that backend, and no other, goes up by one |
| Failover.BackendState.Decr | apps/router-server/src/llm_router/backend_runtime_state.py:21-27 | the counter goes down by one and is removed at one or below |
| Failover.AnsweredBySteps | apps/router-server/src/llm_router/router.py:412-481 | one attempt of the loop is a sequence of events of the request's machine |
| Failover.Forward | apps/router-server/src/llm_router/router.py:393-484 | the nested loops end as the answers spell: groups in turn, each given up only when selection refuses or after max(1, min(instances, 3)) attempts of which the last failed to connect, the first reply below 500 served; and every counter is as it was but for the backend of the response served |
| Failover.FirstGoodReplyIsServed | apps/router-server/src/llm_router/router.py:404-481 | if the groups before were given up in turn and every attempt before was dead, refused or a retried 5xx, an attempt that replies below 500, or is its group's last, is served |
| Failover.OutcomeIs | apps/router-server/src/llm_router/router.py:393-484 | every answer sequence comes to that outcome: a reply served in some group, or every group given up |
| Failover.UnservedMeansAllGivenUp | apps/router-server/src/llm_router/router.py:393-484 | a request ends without a response of its own only after every group, the last included, was given up |
| InflightAccounting.EffectMovesOwner | apps/router-server/src/llm_router/router.py:443-576 | each step moves the counters as it moves what the request owes, but for the two exceptions |
| InflightAccounting.StepKeepsExact | apps/router-server/src/llm_router/router.py:393-576 | a step of any request keeps every counter equal to the number of requests counted on that backend if and only if it is neither an interrupted close nor the end of a left-over's stream that finds a count |
| InflightAccounting.DecrementsArePositive | apps/router-server/src/llm_router/backend_runtime_state.py:21-27 | the saturating decrement never fires at zero where counters are exact |
| InflightAccounting.CountersStayExactExactly | apps/router-server/src/llm_router/router.py:393-576 | along every interleaving of requests the counters are exact after each step if and only if no step is one of the two that break them |
| InflightAccounting.CountersAreExact | apps/router-server/src/llm_router/router.py:393-576 | in every interleaving in which no closing is interrupted and no left-over stream is handed over, failover to the next group after a 5xx included, the counters are exact, every decrement finds a positive counter, and none is left once all requests ended |
| InflightAccounting.AwakeFleetIsExact | apps/router-server/src/llm_router/router.py:393-576 | where nothing sleeps and ids are distinct the counters are exact in every interleaving without an interrupted closing |
| InflightAccounting.LeftOverNeedsASleeper | apps/router-server/src/llm_router/router.py:404-423 | in every run, a group with distinct ids is given up with a left-over only if one of its instances is asleep and was not tried |
| InflightAccounting.ALeftOverStreamUndercounts | apps/router-server/src/llm_router/router.py:465-513 | for every group and two of its instances, a run of nine events in which a left-over stream takes the count of another request |
| FailoverBounds.TriesAreDistinct | apps/router-server/src/llm_router/router.py:405-425 | no instance of a group is tried twice, and groups are tried in order |
| FailoverBounds.RunSpends | apps/router-server/src/llm_router/router.py:393-481 | attempts made are bounded by the attempts left, whatever the backends do |
| FailoverBounds.FailoverIsBounded | apps/router-server/src/llm_router/router.py:393-481 | for every chain and outcome sequence, at most the sum of max(1, min(instances, 3)) attempts, distinct, in order, and the request ends |
| FailoverBounds.SelectionIsAnEvent | apps/router-server/src/llm_router/router.py:412-425 | under every strategy, what instance selection returns or refuses is an event the request's machine allows |
| RouteChain.ResolveModel | apps/router-server/src/llm_router/lora.py:34-66 | a group by its name, else the first group that serves an adapter of that name |
| RouteChain.ResolveMeans | apps/router-server/src/llm_router/lora.py:46-66 | a group's name comes before any adapter's and is rewritten to its tag; an adapter keeps its name and routes over the first group that serves it; nothing else resolves |
| RouteChain.BuildRouteChain | apps/router-server/src/llm_router/lora.py:69-88 | the loop computes the chain that the fallbacks define |
| RouteChain.ChainIsExactly | apps/router-server/src/llm_router/lora.py:69-88 | a chain is the primary, then in the order of the list exactly the fallbacks that resolve to its kind and are not the primary's group nor a group that a fallback before added |
| RouteChain.TargetsServeTheKind | apps/router-server/src/llm_router/lora.py:80-87 | every target added serves the primary's kind, is a group of the configuration, and comes from a fallback that was not seen |
| RouteChain.ChainIsDistinctExactly | apps/router-server/src/llm_router/lora.py:79-88 | the groups of a chain are distinct if and only if no fallback names an adapter of a group the chain leads to anyway |
| RouteChain.AFallbackToItsOwnAdapterDoubles | apps/router-server/src/llm_router/lora.py:80-87 | for any group and adapter, a fallback to an adapter of the group itself doubles the group |
| RouteChain.GroupFallbacksAreDistinct | apps/router-server/src/llm_router/lora.py:69-88 | so they are when the fallbacks are group names |
| Routing.LeastBy | apps/router-server/src/llm_router/routing_strategies.py:90-98 | the loop finds the least by score |
| Routing.LeastIsFirst | apps/router-server/src/llm_router/routing_strategies.py:90-98 | it scores no more than any candidate, and less than every earlier one |
| Routing.Router.PickRoundRobin | apps/router-server/src/llm_router/routing_strategies.py:120-124 | the pick at the group's counter, which goes up by one |
| Routing.Router.SelectInstance | apps/router-server/src/llm_router/routing_strategies.py:206-269 | the dispatcher's choice, and that only round robin among several candidates moves a counter |
| Routing.ChoiceIsEligible | apps/router-server/src/llm_router/routing_strategies.py:228-251 | refused if and only if every untried instance sleeps or none is left; the choice was not tried, is awake, and drains only if all such instances drain |
| RoutingChoices.StrategyPicksExactly | apps/router-server/src/llm_router/routing_strategies.py:47-147 | of the untried, awake and, if any, not draining instances in the order of the roster: round robin and random pick the one in turn of counter and draw; least_inflight the first with the least five per request in flight, plus a billion in cooldown; least_load the same with the load added; p2c the better of two draws |
| Routing.LeastLoadAvoidsCooldown | apps/router-server/src/llm_router/routing_strategies.py:47-72 | with loads in [0, 1e9), least_load takes an instance in cooldown only if all candidates are |
| Routing.Affine | apps/router-server/src/llm_router/routing_strategies.py:155-181 | the home instance if it is a candidate, out of cooldown and within the margin, else the least loaded |
| Routing.HomeIsStable | apps/router-server/src/llm_router/routing_strategies.py:167-169 | the home of a key depends on the set of ids only, not on the order of the roster |
| RoutingChoices.HomeIsNth | apps/router-server/src/llm_router/routing_strategies.py:165-169 | the home of a key is the instance of the roster with hash modulo its size of smaller ids |
| Routing.AffinityGoesHome | apps/router-server/src/llm_router/routing_strategies.py:155-269 | whatever other instances are excluded and however the roster is listed, a key goes home while home is eligible, out of cooldown and within the margin, and otherwise to a least loaded candidate |
| Routing.AffinityIsWithinMargin | apps/router-server/src/llm_router/routing_strategies.py:172-181 | the pick scores within the margin of every candidate |
| Routing.RoundRobinIsFair | apps/router-server/src/llm_router/routing_strategies.py:120-124 | any m consecutive picks fall on each of n places floor(m/n) or ceil(m/n) times |
| Routing.EachCandidateGetsItsShare | apps/router-server/src/llm_router/routing_strategies.py:120-124 | so does each of n distinct candidates |
| SseScanner.ScanSseForUsage | apps/router-server/src/llm_router/router.py:201-236 | the loops leave the remainder and the totals of the scan as a function, or raise where it does |
| SseScanner.EventStream | apps/router-server/src/llm_router/router.py:506-513 | reading chunk by chunk ends with the totals and remainder of one scan of the whole stream |
| SseScanner.ScanThenMore | apps/router-server/src/llm_router/router.py:210-236 | scanning a buffer and then more of the stream is scanning both at once, delimiters across the seam included |
| SseScanner.ChunkingIsInvisible | apps/router-server/src/llm_router/router.py:506-513 | every split into chunks gives the same totals, remainder and failure as one scan |
| SseScanner.EventsDecompose | apps/router-server/src/llm_router/router.py:210-211 | events and remainder put together again are the stream; no event contains a blank line or ends in LF |
| SseScanner.DecompositionIsUnique | apps/router-server/src/llm_router/router.py:210-211 | no other decomposition has those properties, runs of newlines included |
| SseScanner.ScanMergesEvents | apps/router-server/src/llm_router/router.py:212-236 | a scan merges the usages of exactly the events of the stream, in order |
| SseScanner.ScanIsExactly | apps/router-server/src/llm_router/router.py:210-236 | a scan raises if and only if a line of some event does, and has merged the usages of exactly the lines before the first such line, or of all lines |
| SseScanner.TotalsAreLatest | apps/router-server/src/llm_router/router.py:229-235 | the totals hold for each key the latest non-null value reported, and nothing else |
| SseScanner.LinesRejoin | apps/router-server/src/llm_router/router.py:212-213 | the lines joined by LF are the event, and no line holds an LF |
| SseScanner.DataLineIsRead | apps/router-server/src/llm_router/router.py:213-228 | a data line's payload is decoded whatever blanks surround it, and its usages reported |
| SseScanner.OtherLinesAreIgnored | apps/router-server/src/llm_router/router.py:214-221 | a line that does not begin with data: or does not hold the usage key says nothing |
| VllmCommand.BuildCliArgs | apps/backend/app/llmops/launchers.py:70-127 | the command is serve, the tag, and for every item in order the tokens its key and value ask for, the headroom after them if LoRA is on without max_loras; it fails exactly without a model tag |
| CommandTokens.VllmItemShows | apps/backend/app/llmops/launchers.py:94-127 | so every item that is not one of five keys stands in the command as its flag and exactly its value: dict and list as JSON, True alone, False negated, modules as the texts of those with a name |
| VllmCommand.ParseCommand | apps/backend/app/services/vllm_command.py:79-161 | the tag is the token after serve or that of --model, host and port have their defaults, and every other setting is in the configuration if and only if a flag says it, with the value of the last flag of its newest spelling: after an equals sign, the next token if it is no option, or True, and for LoRA every token up to the next flag |
| FlagTokens.FlagsSay | apps/backend/app/services/vllm_command.py:92-127 | that is what the dictionary of the flag loop holds after kebab-case became snake_case, for every token list of either engine |
| Cli.ParseFlags | apps/backend/app/services/vllm_command.py:93-121 | the index loop sets, in order, what each flag and its following tokens say |
| VllmRoundTrip.SaidNames | apps/backend/app/llmops/launchers.py:94-127 | the flags of a printed command are those of its configuration's keys, each said once, none skipped by the launcher |
| VllmRoundTrip.ParsedIs | apps/backend/app/services/vllm_command.py:79-161 | what the parser makes of a printed command is a function of its flags and their arguments alone |
| VllmRoundTrip.FaithfulIsKept | apps/backend/app/services/vllm_command.py:64-161 | a faithful command is printed again with the same flags and arguments |
| VllmRoundTrip.KeptIsFaithful | apps/backend/app/services/vllm_command.py:129-147 | a command that is printed again the same is faithful |
| VllmRoundTrip.RoundTripExactly | apps/backend/app/services/vllm_command.py:64-161 | printing, parsing and printing again gives the same command if and only if its values are stable, its address is there, it names no served model, and enabled LoRA comes with max-loras |
| VllmRoundTrip.ServedNameIsLost | apps/backend/app/services/vllm_command.py:129-144 | every command that names its served model loses the name |
| VllmRoundTrip.NullHeadroomIsNotKept | apps/backend/app/llmops/launchers.py:89-96 | every command with LoRA enabled and an explicit null max_loras gains the default |
| VllmRoundTrip.LossyCommandsExist | apps/backend/app/services/vllm_command.py:64-161 | for every model there are printable commands of both kinds |
| Codecs.LawfulCodecsExist | apps/backend/app/services/vllm_command.py:24-56 | the laws asked of number and JSON texts can be kept, so the round trips are about something |
| SglangCommand.BuildCliArgs | apps/backend/app/llmops/launchers.py:314-370 | the command is the model path, the served name, metrics, LoRA with its paths, and for every item in order the tokens its key and value ask for, three keys renamed; it fails exactly without a model tag |
| CommandTokens.SglangItemShows | apps/backend/app/llmops/launchers.py:344-370 | so every item that is not one of eleven keys stands in the command as its flag and exactly its value: a list item by item, a dict as JSON, True alone, False not at all |
| SglangCommand.ParseCommand | apps/backend/app/services/vllm_command.py:196-265 | the tag is that of --model-path, or of --model if that is empty or missing, the address has its defaults, three settings are stored under the neutral key, and every other is in the configuration if and only if a flag says it |
| SglangCommand.RenameFind | apps/backend/app/services/vllm_command.py:236-240 | mapping one flag back moves its value and leaves every other key |
| SglangRoundTrip.KeyOfFlag | apps/backend/app/llmops/launchers.py:300-304 | the renaming of keys to flags has an inverse |
| SglangRoundTrip.PlainPathReads | apps/backend/app/services/vllm_command.py:24-41 | a plain name=path is read back as the same module |
| SglangRoundTrip.LineKeptExactly | apps/backend/app/services/vllm_command.py:174-265 | where the second command is legible, it has the same flags if and only if the first is faithful |
| SglangRoundTrip.RoundTripExactly | apps/backend/app/services/vllm_command.py:174-265 | printing, parsing and printing again gives the same command if and only if its values are stable, its address is there, the served name is the model, and its LoRA paths are plain |
| SglangRoundTrip.ServedNameIsLost | apps/backend/app/services/vllm_command.py:230-234 | every command whose served name is not its model loses the name |
| SglangRoundTrip.LossyCommandsExist | apps/backend/app/services/vllm_command.py:174-265 | for every model that reads as text and every other name there is such a printable command |
| Autoscaler.GroupTiming.Decide | apps/backend/app/llmops/autoscaler.py:53-111 | the decision and the timers in the load's own numbers, for every load and every state of the group, and exactly when it raises |
| Autoscaler.DecisionIs | apps/backend/app/llmops/autoscaler.py:53-111 | the whole table: below the floor the first that can come up does; pressure above the threshold for the window, past the cooldown and below max_ready brings up; no pressure, nothing running and nothing waiting for the delay takes down the last; any other check clears the idle clock |
| Autoscaler.BringsUpExactly | apps/backend/app/llmops/autoscaler.py:75-91 | at or above the floor an instance is brought up if and only if the pressure is above the threshold and has been for the window, the cooldown is over, fewer than max_ready serve, and one sleeps or is stopped |
| Autoscaler.TakesDownOnlyIdle | apps/backend/app/llmops/autoscaler.py:92-111 | an instance is taken down only if nothing runs, nothing waits and the pressure is at most the threshold, and any other check clears the idle clock |
| Autoscaler.RaisesExactly | apps/backend/app/llmops/autoscaler.py:100-103 | some load makes the policy raise for a group if and only if min_ready is negative and nothing is ready |
| Autoscaler.TakeDown | apps/backend/app/llmops/autoscaler.py:100-111 | the scale-down part of the policy, and that it raises exactly if it would take the last of no ready instances |
| Autoscaler.ActionsKeepBounds | apps/backend/app/llmops/autoscaler.py:66-109 | an action is one the manager accepts; it takes READY never below min_ready and ready+starting never above max(min_ready, max_ready), and taking down never re-triggers the floor rule |
| Autoscaler.MinWarmIsKeptExactly | apps/backend/app/llmops/autoscaler.py:101-109 | taking down keeps min_warm resident unless a group that cannot sleep stops a ready instance at exactly min_warm |
| Autoscaler.MinWarmIsUndercut | apps/backend/app/llmops/autoscaler.py:100-103 | every group that cannot sleep and is resident at exactly min_warm with more than min_ready ready drops below min_warm when idle long enough |
| Autoscaler.ALoneInstanceUndercutsMinWarm | apps/backend/app/llmops/autoscaler.py:100-103 | so does a single ready instance under the default min_warm and a min_ready of zero |
| Autoscaler.BringsUpTheFirst | apps/backend/app/llmops/autoscaler.py:66-89 | the first of the sleeping, or else of the stopped, is brought up |
| Autoscaler.TakesDownTheLast | apps/backend/app/llmops/autoscaler.py:101-109 | the last of the ready, or of the sleeping, is taken down |
| Autoscaler.StepKeepsPace | apps/backend/app/llmops/autoscaler.py:75-91 | every tick keeps what the timers say about past scale-ups and past calm checks |
| Autoscaler.ScaleUpsArePaced | apps/backend/app/llmops/autoscaler.py:59-102 | over every load history two pressure scale-ups are at least cooldown and window apart, no check inside the window found the pressure gone, and the cap holds |
| Autoscaler.StepKeepsPatience | apps/backend/app/llmops/autoscaler.py:75-111 | every tick keeps what the idle timer says about past checks that found load |
| Autoscaler.ScaleDownsArePatient | apps/backend/app/llmops/autoscaler.py:92-111 | over every load history, an instance goes down only after every load check within its delay found the group idle |
| Autoscaler.IdleActionsAreFinite | apps/backend/app/llmops/autoscaler.py:66-111 | under idle load the successful actions plus what is left to do are bounded by the group's weight, whatever comes up or dies meanwhile |
| Autoscaler.RestsExactlyWhenSettled | apps/backend/app/llmops/autoscaler.py:66-111 | past both delays a tick does nothing if and only if the group is settled, and a settled group is left alone at any time |
| Autoscaler.SettledMeans | apps/backend/app/llmops/autoscaler.py:66-111 | settled with nothing starting: ready = min_ready or nothing to bring up, and no sleeper beyond min_warm |
| Autoscaler.IdleGroupSettles | apps/backend/app/llmops/autoscaler.py:92-111 | after as many successful late ticks as its weight an idle group is settled |
| Autoscaler.FirstQuietTick | apps/backend/app/llmops/autoscaler.py:66-98 | an idle tick starts the idle clock, or belongs to the floor rule, which acts unless there is nothing to act on |
| Placement.Place | apps/backend/app/llmops/scheduler.py:46-76 | the loop's changes are those of the pass, whatever order the keys come in |
| Placement.TargetIsEmptiest | apps/backend/app/llmops/scheduler.py:73-75 | the target is live, runs the engine, and no such node has more free VRAM, or as much and an earlier id |
| Placement.FreeVramAddsUp | apps/backend/app/llmops/scheduler.py:20-30 | free memory adds up over the GPUs, and one that uses more than it has adds nothing |
| Ordering.LessExactly | apps/backend/app/llmops/scheduler.py:74 | ids compare at the first place where they differ, or by which ends first |
| Placement.PassMovesExactly | apps/backend/app/llmops/scheduler.py:46-76 | a key is moved if and only if it is desired, a live node runs its engine, and it is not on such a node; then to the emptiest of them, ties by id |
| Placement.PassPlacesAll | apps/backend/app/llmops/scheduler.py:59-76 | after a pass every desired key that some live node can run is on such a node, and a key that was stays |
| Placement.OnePassSuffices | apps/backend/app/llmops/scheduler.py:46-76 | a second pass changes nothing |
| Placement.OrderOfNodesIsIrrelevant | apps/backend/app/llmops/scheduler.py:65-76 | a pass does not depend on the order of the node list |
| Placement.ForeignExactly | apps/backend/app/llmops/manager.py:234-257 | a key on a live node is foreign to all other nodes; any other key is foreign to none |
| Placement.ExactlyOneNodeActuates | apps/backend/app/llmops/manager.py:234-257 | after a pass each desired key that can run is non-foreign to exactly one node, which is live and runs its engine |
| PlacementProtocol.StepKeepsTables | apps/backend/app/llmops/reconciler.py:296-314 | in a settled fleet a step writes what is there already, and who acts on a key is the node it is assigned to |
| PlacementProtocol.StepStaysCalm | apps/backend/app/llmops/scheduler.py:94-117 | what passes under way have read keeps agreeing with the tables, with nodes joining and capacities changing |
| PlacementProtocol.SettledFleetIsStable | apps/backend/app/llmops/reconciler.py:265-314 | along every interleaving of scheduler and converge passes, no assignment and no desired state changes, and a key on a node that is alive from the start, whatever its desired state, is acted on by that node only |
| PlacementProtocol.PassSettles | apps/backend/app/llmops/scheduler.py:94-117 | every uninterrupted run of a scheduler pass, in whatever order it writes, leaves the assignments of one placement and settles a fleet whose keys can all run |
| PlacementProtocol.PassCanRun | apps/backend/app/llmops/scheduler.py:94-117 | such a run exists in every state |
| PlacementProtocol.UnreadNodesAreHarmlessExactly | apps/backend/app/llmops/manager.py:246-257 | where the node reads of some agents may fail, no run changes an assignment of a settled fleet if and only if each of these agents is the home of every key wanted running or asleep |
| PlacementProtocol.UnreadNodesMoveAKey | apps/backend/app/llmops/manager.py:251-257 | for every other agent and such key, four events after which the agent has claimed the key, or lost its assignment if it cannot run it |
| RestartBudget.ModelInstance.MaybeScheduleRestart | apps/backend/app/llmops/reconciler.py:47-57 | an instance that is wanted, managed and within budget is armed at now + base * 2^count |
| RestartBudget.ModelInstance.CheckProcessExit | apps/backend/app/llmops/reconciler.py:78-98 | an exited managed process makes the instance failed, or stopped if it was stopping |
| RestartBudget.ModelInstance.Reconcile | apps/backend/app/llmops/reconciler.py:101-150 | one pass: exit first, then readiness, then the startup timeout counted from the last log growth |
| RestartBudget.ModelInstance.Emit | apps/backend/app/llmops/events.py:20-67 | which alert a transition raises, and that READY clears the failed mark |
| RestartBudget.ModelInstance.Start | apps/backend/app/llmops/manager.py:453-504 | a start resets the budget only if asked to; a refused start changes nothing, a failed spawn leaves the instance failed and unmanaged |
| RestartBudget.ModelInstance.ProcessRestart | apps/backend/app/llmops/reconciler.py:167-199 | a restart is tried if and only if the instance is failed, wanted, managed, its own node's, armed at or before now and below the budget with restarts on; it spends one of the budget whether or not the start succeeds |
| RestartBudget.RestartIsTriedExactly | apps/backend/app/llmops/reconciler.py:167-199 | the same of a step of a run, with what it leaves of the instance |
| RestartBudget.EveryRestartHappens | apps/backend/app/llmops/reconciler.py:47-199 | for every policy and every n up to max_restarts, a run of crashes with exactly n restarts and n model_failed, which the next crash ends with model_gave_up if n is max_restarts and arms again if not |
| RestartBudget.BackoffDoubles | apps/backend/app/llmops/reconciler.py:47-57 | the first delay is the base and each delay twice the one before |
| RestartBudget.StepKeepsBudget | apps/backend/app/llmops/reconciler.py:47-57 | every step keeps: restarts tried are those counted, within max_restarts, the n-th no earlier than base * (2^n - 1) after the reset |
| RestartBudget.PassKeepsAlerts | apps/backend/app/llmops/events.py:23-40 | every reconcile pass keeps: alerts since the reset are as many as failures, and only the one past the budget says gave up |
| RestartBudget.EpisodesAreBounded | apps/backend/app/llmops/reconciler.py:47-199 | over every run and for each episode: at most max_restarts restarts, the backoff bound, and max_restarts model_failed before one model_gave_up |
| RestartBudget.RestsUntilAsked | apps/backend/app/llmops/reconciler.py:176-199 | failed with nothing armed, an instance stays so until somebody starts or stops it, and raises no alert |
| RestartBudget.GivenUpExactly | apps/backend/app/llmops/events.py:24-40 | an instance at rest was announced as given up if and only if no start was refused or failed; then its budget is spent |
| RestartBudget.ARefusedRestartGivesUpSilently | apps/backend/app/llmops/reconciler.py:190-199 | for every policy with a budget, three events after which an instance rests with no alert but that it failed |
| RestartBudget.RecoveryIsAnnouncedExactly | apps/backend/app/llmops/events.py:41-67 | in every run, coming up is announced as recovery if and only if the instance crashed or timed out since it was last up |
| RestartBudget.TimesOutExactly | apps/backend/app/llmops/reconciler.py:124-150 | a silent start is failed at the first look more than start_timeout after its log last grew, and not before |
| OverlayMerge.BackendMergeInto | apps/backend/app/services/overlay.py:58-113 | the backend's loops compute the merged configuration, and raise exactly if a model map is overlaid onto a scalar |
| OverlayMerge.RouterMergeInto | apps/router-server/src/llm_router/overlay.py:36-69 | the router's loops compute the same engines and leave the rest |
| OverlayMerge.MergeInstances | apps/backend/app/services/overlay.py:89-96 | the index loop: the overlay's latest at the last place of its id, strangers at the end |
| OverlayMerge.MergedInstancesAre | apps/backend/app/services/overlay.py:89-96 | the merged list is the base's, place by place, the last place of an id the overlay has replaced by the overlay's latest, then the overlay's instances of other ids, each once and in order |
| OverlayMerge.InstanceLookup | apps/backend/app/services/overlay.py:89-96 | an instance looked up by id is the overlay's latest if it has one, else the base's |
| OverlayMerge.MergeIsRightBiased | apps/backend/app/services/overlay.py:69-96 | group by group: each setting, the policies and each instance are the overlay's if set, else the base's; groups in the base's order with new ones at the end |
| OverlayMerge.ServerIsRightBiased | apps/backend/app/services/overlay.py:100-112 | the embedding server's models merge parameter by parameter, anything else is the overlay's if set |
| OverlayMerge.GroupAbsorbsExactly | apps/backend/app/services/overlay.py:71-96 | an overlay group merges into its own result without change unless it is new and has no instance list |
| OverlayMerge.MergeIsIdempotentExactly | apps/backend/app/services/overlay.py:58-113 | layering twice is layering once if and only if every group added whole carries an instance list |
| OverlayMerge.AGroupWithoutInstancesIsNotIdempotent | apps/backend/app/services/overlay.py:71-90 | every group without an instance list changes when layered twice onto a configuration that lacks it |
| RateLimiter.Limiter.CheckRate | apps/router-server/src/llm_router/auth.py:35-48 | one check: the key's queue loses what left the window, and the request is admitted if there is room |
| RateLimiter.AtMostLimitPerWindow | apps/router-server/src/llm_router/auth.py:35-48 | in every window (t - 60, t] at most rpm_limit requests are admitted |
| RateLimiter.RejectedExactly | apps/router-server/src/llm_router/auth.py:39-47 | a request is rejected if and only if rpm_limit were admitted in the 60 s before it |
| Scoring.Rerank | apps/router-server/src/embedding_reranker/embedding_engine/embed_rerank.py:17-39 | for any batch size the scores are those of the documents alone, in order |
| Scoring.ScoreTexts | apps/router-server/src/embedding_reranker/embedding_reranker_launcher.py:151-195 | unequal or empty lists are refused; otherwise score i is that of the i-th texts of both sides alone, a scalar standing for each |
| Scoring.GroupByLeft | apps/router-server/src/embedding_reranker/embedding_reranker_launcher.py:183-185 | every index stands in the group of its left text, and groups hold nothing else |
| Scoring.Score | apps/router-server/src/embedding_reranker/embedding_reranker_launcher.py:182-190 | the score at index i is that of pair i alone, for any pairs and batch size |
| Scoring.RankDocuments | apps/router-server/src/embedding_reranker/embedding_reranker_launcher.py:113-133 | the result lists the best documents, best first and equals in request order, each with its own score, ahead of every one cut off by top_n |

## Left out

- VllmCommand.BuildCliArgs: a tag that is not text is not modelled.
- SglangCommand.BuildCliArgs: nor is a served name that is not text.
- LeaderLease.RunElector: does not model the single-machine mode, which leads forever without a lease.
- LeaderLease.MutualExclusionExactly: the acquire and release hooks are not modelled; leading is the flag.
- EvalQueue.StepKeepsMoving: assumes that launching a run does not raise; a run that cannot be launched leaves the queue.
- EvalQueue.LaunchRule: excludes evaluations starting during a load test, not the other way round, because a load test checks for itself before it awaits the store.
- Failover.Forward: the request's own steps before the loop (resolving the model, refusing pooling models) and the health marks are not modelled.
- InflightAccounting.CountersAreExact: a stream that was handed over is assumed to be started, and the counters are those of one router process.
- SseScanner.DataLineIsRead: decoding JSON is a parameter, and of a decoded object only its usage and its message's usage are modelled.
- VllmCommand.ParseCommand: does not parse the leading environment assignments, nor derive the CUDA device, the names of group and instance and the warnings.
- SglangCommand.ParseCommand: as for vLLM.
- VllmRoundTrip.RoundTripExactly: the environment prefix, the CUDA device, the names of group and instance and the warnings are not modelled; tokens are taken as split by the shell. Number formatting and JSON are a lawful codec.
- SglangRoundTrip.RoundTripExactly: as for vLLM; the tag has to read as text, and no key may spell one of the printer's own flags.
- Autoscaler.ScaleUpsArePaced: instances do not come back by automatic restart or by hand, and the policy is one group's and stays fixed.
- Autoscaler.IdleGroupSettles: for a min_ready that is not negative and actions that succeed; an instance of a sleep-capable group that was not launched with sleep mode refuses to sleep.
- PlacementProtocol.SettledFleetIsStable: nodes join but do not leave, nobody asks for a change of state meanwhile, and automatic restarts are not among the actions.
- Placement.Place: capacity and engines are modelled as decoded; undecodable text counts as no capacity and any engine.
- RestartBudget.EpisodesAreBounded: starting, stopping, and a pass with its alert are single steps; sleeping instances and adopted processes are not modelled.
- OverlayMerge.BackendMergeInto: a null where the merge expects a mapping or a list is not modelled.
- RateLimiter.AtMostLimitPerWindow: the limit of a key is fixed during the history.
- Routing.LeastLoadAvoidsCooldown: loads and penalties are reals, so rounding is not modelled; a cooldown or drain mark does not expire while one request is being routed.
- Scoring.Score: the cross-encoder is assumed to score pairs independently, and the squashing of logits is a parameter.
- HTTP, subprocesses, SQL, files, clocks and random draws: parameters or events.
- Versions of the configuration and their pruning, registry resynchronisation, drain marks, token quotas, percentiles, and the user interface: they would add easy members only.
