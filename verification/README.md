# A verified model of dokploy-sentinel

dokploy-sentinel is a watchdog for Docker hosts. A timer runs it; each run loads a state
file, samples the host and its containers, turns the sample into observations that are OK,
BAD or UNKNOWN, moves one small state machine per alert key, saves the state and then
delivers notices. Its promises are about many runs: no alert is called resolved because a
reading went missing, nobody is told twice, a crash leaves a state file that the next run can
go on from.

This project models that behaviour in Dafny and states those promises over every input and
every sequence of runs: proved where the code keeps them, and where it does not, with the
exact condition under which it does. `dafny verify dfyconfig.toml` checks it all.

## How it is built

- **One key.** `KeyMachine` gives the alert machine of one key as a function of its record
  and one event (an observation, an outage of the key's source, the end of a run). The laws
  of alerting are proved over all histories of events: `AllClear`, `Grammar`, `Episodes`,
  `Stutter`, `Flapping`, `Cooldown`, `Recipients`, `Floors`, `Degraded`, `Mute`, `Replicas`.
  `Histories` says what shape real histories have, and `Scripts` builds the ones that serve
  as inputs.
- **All keys.** `AlertMap` is a whole run over the map of keys, and shows that a run is, key by
  key, an independent machine, so the laws hold of the system. `SystemLaws` says them there.
- **In place.** `Snapshots` is the implementation: a class with a map of mutable records,
  handlers that assign fields, a sweep and a prune. Each method is proved equal to the
  function above. `Runners` does the same for one timer firing.
- **Crashes.** `Protocol` is load, evaluate, save and post, one channel at a time (`Delivery`),
  as a transition system that may stop between any two steps; a committed `RunOnce` is one of
  its paths. Its durable cell holds the alert records, the service records and the disk rings.
  `Fires`, `Losses` and `LostFires` say what the log of posts then holds.
- **Before the machine.** `Glob` and `Exceptions` model the per-container rules, `Crashloop` the
  crash-loop check; `HonestClears` and `QuietClears` follow its alerts back through both, and
  `CrashLoopLaws` from the samples to the state file in every behaviour of the protocol.
- **Bounded memories.** `Services` and `Baselines` (crash events, restart baseline) and `Disk`
  (the 64-point ring) show what a bounded store answers compared with the whole history;
  `Memories` joins them over sequences of runs, and `Protocol` over crash-prone ones.
- **Said of the fields.** The functions that the laws are stated with are themselves pinned down
  in the source's own fields: `Matching` (what a rule does), `CrashFacts` (what counts as a
  crash or a restart), `Records` (what a notice and a record say), and next to the function
  elsewhere (`Route.RoutedExactly`, `Flapping.FiresAtConfiguredNumber`, `Disk.JudgedExactly`).
- **Loops.** `Budget` is the declared-memory sum, `InspectFanOut` the bounded parallel inspect.

Instants are nanoseconds since Go's zero time, tiers are 0, 1, 2. Clocks may step backwards
unless a statement says otherwise.

## Where the code and its promises part

Each of these has its exact condition as a lemma, and most a lemma with the input that shows it;
the histories among them are ones the program can meet.

- *UNKNOWN freezes the key* (`docs/plan/05-alerting.md:16`). A Docker outage reported as one
  coarse observation freezes firing keys, but pending keys of that check are pruned and lose
  their count: `Stutter.FreezesExactly`, `Stutter.OutageForgetsPendingKey`.
- *Could not measure is not healthy.* A `thresholds` override for `crashloop` re-decides an
  UNKNOWN observation from its measured value and so turns it into OK, and runs that could not
  read a service then send its RESOLVED; with `name = "*"` the outage itself disappears
  (`Exceptions.UnknownSurvivesExactly`, `Exceptions.OverrideMakesFalseAllClear`,
  `Exceptions.OverrideHidesOutage`). Given the rules and the containers that
  may speak for a service from run to run, every all-clear of the service is completed by real
  measurements if and only if for none of the containers does the last live override ask for a
  positive number of crashes, or every one of them is muted:
  `HonestClears.AllClearWasMeasuredExactly`.
- *A later rule wins on direct conflict* (`docs/plan/06-config.md:120`). True of the verdict. An
  override that lowers an observation also sets its tier to WARN and clears its fix, and a later
  override that finds it BAD again restores neither, so the alert goes to the wrong channels:
  `Exceptions.TierIsFinal`, `Exceptions.LaterRuleWinsExactly`,
  `Exceptions.EarlierOverrideLowersTier`.
- *Consecutive OK runs* (`docs/plan/05-alerting.md:17-18`). The machine counts observations, and
  `unbounded_mem` makes one per container under one service key: two good replicas complete
  `resolve_samples = 2` in one run. Resolving takes that many runs if and only if no run observes
  the key twice, or one sample resolves anyway: `Replicas.ClearsOverRunsExactly`,
  `Replicas.ReplicasClearEarly`. Breaches add up in the same way (`Flapping.FiresExactlyAtThreshold`).
- *Save before sending* (`internal/app/run.go:92-101`) makes posting at most once, not exactly once:
  a process that ends between its save and its last post leaves a state file in which everything
  was announced, and no later run posts what is missing. The log is complete if and only if no
  process ended that way (`Losses.LogCompleteExactly`, `Losses.CrashLosesPosts`). While a key whose
  FIRE was lost keeps breaching at its tier within the cooldown, nothing at all is posted about it
  (`LostFires.LostFireStaysLost`); and its RESOLVED goes to the channels of the episode, which heard
  nothing (`Recipients.FollowUpReachesEpisode`).
- *A coarse observation means an outage* (`internal/alert/statemachine.go:57-61`). A service named
  "docker" that could not be inspected makes one too, and a rule that overrides its threshold hides
  one: `Crashloop.CoarseExactly`, `Crashloop.SweepSeesOutageExactly`.
- *Restart deltas.* Services are pruned on runs that could not read Docker too, so a service
  that remembers no crash loses its restart baseline in an outage; the restarts across it go
  unreported, or the container's whole count is reported as new. For any mixture of outages and
  failed inspects: what the deltas add up to (`Services.DeltasBalance`), when they telescope
  (`Services.DeltasTelescope`), and when the run after an outage tells the truth
  (`Services.DeltaAcrossOutage`, `Services.OutageFabricatesDelta`).
- *Clean completions are not crashes* (`internal/checks/baseline.go:104-106`). True of the store,
  the count and the log. The restart delta looks at them all the same, so a container that
  restarted and then exited with 0 can make its service BAD:
  `CrashFacts.CleanExitsLeaveVerdictExactly`, `CrashFacts.CleanExitDecides`.
- *Crash counting.* The counter compares whole seconds and the pruner nanoseconds. The bounded
  store counts as a full log would if and only if no earlier run pruned past the start of the
  second in which the window begins (runs a second apart never do):
  `Services.CountsExactlyWhenClear`, `Services.SecondApartIsClear`.
- *Globs.* `*` in the subject is compared literally before the pattern's `*` is considered, so
  the matcher is right about a subject for all patterns if and only if the subject has no `*`
  (`Glob.RightExactlyOnStarFree`). It errs in one direction only: what it accepts does match
  (`Glob.AcceptsSoundly`).
- *This channel never receives below its floor* (`docs/plan/06-config.md:24`). True of FIRE,
  ESCALATE and REMINDER. DEGRADED and RESOLVED go to every channel of the episode whatever the
  tier by then (`Recipients.FollowUpReachesEpisode`), so the promise holds of a configuration if
  and only if every channel that is routed at all admits WARN: `Floors.FloorsHoldExactly`,
  `Floors.DegradedGoesBelowFloor`.
- *One notice per channel.* Validation lets a routing table list a channel twice. No decision
  ever names a channel twice if and only if no table routes to one twice: `Floors.OneNoticePerChannelExactly`.

## Model

| member | source | states |
|---|---|---|
| Route.ComputeRouteTargets | internal/alert/route.go:11-23 | The routing loop computes `RouteTargets`, whose meaning the next two rows fix |
| Route.AdmittedExact | internal/alert/route.go:11-23 | A channel is routed iff the tier's table lists it, it is defined and its floor admits the tier |
| Route.RoutedExactly | internal/alert/route.go:11-23 | In the configuration's fields: a channel is routed at tier 0, 1 or 2 iff the warn, alert or page table lists it, it is a target and its `min_tier`, if given, is not above |
| Route.AdmittedConcat | internal/alert/route.go:11-23 | Routing keeps the table's order and repetitions |
| Route.UnionTargets | internal/alert/route.go:40-52 | The union loop with its `seen` map computes `Union`, for any existing list |
| Route.UnionConcat | internal/alert/route.go:40-52 | Adding channels in two steps is adding them in one |
| Route.DistinctExact | internal/alert/route.go:39-52 | The remembered channels are free of duplicates, none lost or added, in order of first occurrence |
| KeyMachine.KeySplits | internal/checks/observation.go:47 | A key built from a colon-free check id splits back, at its first colon, into check and scope, so keys do not collide |
| KeyMachine.FirstColon | internal/alert/statemachine.go:77-80 | The index found is the first colon, or the length when there is none |
| KeyMachine.ExecTickParts | internal/app/run.go:79-82 | One key's run is its observations, then the sweep, then the prune |
| KeyMachine.ExecTickUnfolds | internal/alert/statemachine.go:25-55 | With at most one observation of the key, a run is that observation's transition, or else the sweep and the prune |
| AllClear.CounterIsTrailingOKs | internal/alert/statemachine.go:188-202 | Over every history a firing key's OK counter is the number of OKs since its last BAD, and below `resolve_samples` |
| AllClear.NoFalseAllClear | internal/alert/statemachine.go:184-208 | A firing key stops firing at an event iff the event is a measurement completing `resolve_samples` OKs in a row; it is then deleted. Absence, UNKNOWN, sweep and prune never clear it |
| AllClear.ResolvedOnlyOnAllClear | internal/alert/statemachine.go:203-207 | RESOLVED is sent only for a firing key by such an event |
| AllClear.FiringSurvivesWithoutOKs | internal/state/io.go:121-130 | A firing key survives any stretch without a good measurement |
| AllClear.TrailingOKsExact | internal/config/validate.go:67-69 | Counting trailing OKs up to the configured number is the same as the last that many verdicts being OK |
| Grammar.WordFits | internal/alert/statemachine.go:104-208 | One unmuted event says at most one thing, and the thing the grammar allows next |
| Grammar.DecisionsFollowGrammar | internal/alert/statemachine.go:106-208 | With every tier routed, unmuted decisions are (FIRE (ESCALATE, REMINDER or DEGRADED)* RESOLVED)*, open exactly while the key fires |
| Grammar.StoredTierIsLatest | internal/alert/statemachine.go:151-169 | A firing key's stored and last announced tier is that of its latest BAD |
| Grammar.EscalatesExactlyOnWorseTier | internal/alert/statemachine.go:152-169 | While firing, ESCALATE is sent iff a BAD's tier exceeds the previous BAD's and someone is routed; a lower tier is silent and never resolves |
| Mute.MuteKeepsRecordExactly | internal/alert/statemachine.go:30-51 | A muted observation leaves the record of the unmuted one iff the key is tracked or the observation is not a BAD; it sends nothing |
| Mute.MuteStopsOnlyTheSending | internal/alert/statemachine.go:30-51 | Over every history, once the muted events that met an untracked key are deleted, the record is the one without mutes and the sends are those of the unmuted events |
| Stutter.FreezesExactly | internal/alert/statemachine.go:62-118 | A run that measured nothing of the key changes only the two blind fields iff the key is not a pending one known only by the coarse observation; that one is pruned |
| Stutter.OutageForgetsPendingKey | internal/state/io.go:124-130 | A pending key one BAD short of firing is forgotten in a coarse outage |
| Stutter.SightedTick | internal/alert/statemachine.go:25-55 | A run with a measurement acts alike with and without its UNKNOWN observations, on records that differ only by blindness |
| Stutter.UnknownIsStutter | internal/alert/statemachine.go:62-118 | Deleting every blind run and every UNKNOWN observation leaves the FIRE, ESCALATE, REMINDER and RESOLVED decisions and the final record unchanged, for every history |
| Flapping.PendingCountIsStreak | internal/alert/statemachine.go:125-139 | A key that is not firing is tracked exactly while it has a streak of BADs since the last OK or absent run, and remembers its length; muted or not, repeated or not |
| Flapping.FiresExactlyAtThreshold | internal/alert/statemachine.go:136-149 | A quiet key fires at an event iff it is a BAD whose streak reaches the threshold of its tier and check; the FIRE it sends, unless muted, is given outright |
| Flapping.FiresAtConfiguredNumber | internal/config/model.go:73-84 | In the configuration's fields: a quiet key fires at a BAD iff its streak reaches the number in the override block of its check, if that is one of the eight that have one, else the warn, alert or page number of its tier |
| Flapping.FirstPageFires | internal/alert/statemachine.go:136-149 | With one page sample and no override, the first unmuted PAGE breach of an untracked key fires at once, to every channel routed at PAGE |
| Flapping.StatusIsHistory | internal/alert/statemachine.go:104-208 | The stored status equals a reference status read off the observations alone, after every history |
| Episodes.FireOpensEpisode | internal/alert/statemachine.go:136-149 | A FIRE takes its key from not firing to firing |
| Episodes.EpisodeEndsByAllClear | internal/alert/statemachine.go:184-208 | A key firing at one point of its history and not at a later one met an all-clear in between |
| Episodes.FiresEncloseAllClear | internal/alert/statemachine.go:136-149 | Between two FIREs of a key lies an all-clear, in every history |
| Episodes.OriginsExact | internal/alert/statemachine.go:49-51 | The decisions of a history come one to an event, in the order of the events |
| Replicas.ReplicasClearEarly | internal/checks/containers.go:34-58 | With `resolve_samples` of two or more, a history of an unbounded service with two containers in which it is cleared over too few runs |
| Replicas.ClearsOverRunsExactly | internal/alert/statemachine.go:198-202 | Every all-clear is completed over `resolve_samples` different runs, in all histories with at most n observations of the key a run, iff n is at most one or one sample resolves |
| Cooldown.MinOfExact | internal/alert/statemachine.go:210-219 | The reference clock is the least of its readings |
| Cooldown.ClockIsLeastReading | internal/alert/statemachine.go:210-219 | Under any clock steps a firing key's `LastNotified` is the least clock reading since it last fired, changed tier or was due |
| Cooldown.RemindsExactlyWhenDue | internal/alert/statemachine.go:170-178 | An unmuted BAD at the current tier reminds iff the clock has moved a full cooldown beyond that least reading; otherwise it is silent |
| Cooldown.RemindsAtConfiguredCooldown | internal/config/model.go:86-97 | The same in the configuration's fields: the cooldown of the check's override block, else that of the tier |
| Cooldown.ReminderStep | internal/alert/statemachine.go:170-178 | A reminder moves the clock on by at least one cooldown |
| Cooldown.RemindersAreSpaced | internal/alert/statemachine.go:170-178 | With a clock that does not go back, m reminders at one tier need at least m cooldowns of elapsed time |
| Recipients.NotifiedExactly | internal/alert/statemachine.go:146-176 | Over unmuted histories the remembered channels are the distinct channels of the episode's sends, in first-routed order |
| Recipients.NotifiedCovers | internal/alert/statemachine.go:49-51 | Muted or not, every channel an episode reached is remembered, once |
| Recipients.FollowUpReachesEpisode | internal/alert/statemachine.go:104-207 | An unmuted RESOLVED or DEGRADED reaches exactly the episode's channels: each once, none missing, none extra, in order of first contact; it carries the tier of the latest BAD |
| Recipients.FloorsRespected | internal/alert/route.go:18-20 | FIRE, ESCALATE and REMINDER go to exactly the channels listed for their tier whose floor admits it |
| Records.SaysWhatWasObserved | internal/alert/statemachine.go:221-236 | Every notice of an observation carries its title, threshold, fix, scope, check and key, host and instant of the run; its measured text unless degraded; at the observed tier if it is about a breach, else the stored one |
| Records.SweepSaysUnavailable | internal/alert/statemachine.go:88-98 | A sweep's notice names the check and the scope the key was built from and gives no words of an observation |
| Records.MeasuredIsLatest | internal/alert/statemachine.go:131 | The stored measurement is that of the latest breach, after every history |
| Records.FiredAtIsFireInstant | internal/alert/statemachine.go:143 | A firing key's stored instant of firing is the clock reading of the event at which it started to fire |
| Records.FirstDetectedIsLeast | internal/alert/statemachine.go:210-219 | First detection is the least clock reading of a measurement since the record was made, under any clock steps |
| Records.LastSeenIsLatestRun | internal/alert/statemachine.go:74-84 | The stored run is that of the latest observation of the key, or of the latest outage of its source while it fired |
| Records.CountIsBreachesInRow | internal/alert/statemachine.go:133-134 | The stored count of breaches is that since the key was last good or untracked, while pending and while firing |
| Floors.DegradedGoesBelowFloor | internal/alert/statemachine.go:111-115 | For every channel with a floor above WARN that some tier is routed to, a history of memory pressure, one observation a run, that tells it of degraded monitoring at WARN |
| Floors.FloorsHoldExactly | internal/alert/route.go:18-20 | For every valid configuration: no channel ever hears of a tier below its floor, over all keys and histories the program can meet, iff every routed channel admits WARN |
| Floors.OneNoticePerChannelExactly | internal/alert/statemachine.go:146-176 | For every valid configuration: no decision ever names a channel twice, over the same histories, iff no routing table yields one twice |
| Degraded.StaysTold | internal/alert/statemachine.go:111-112 | After a degraded notice the key stays told until it is measured |
| Degraded.OncePerBlindSpell | internal/alert/statemachine.go:57-118 | Between two degraded notices on one key lies a measurement of it, whichever code path spoke |
| Degraded.OutageTellsOnce | internal/alert/statemachine.go:73-101 | A coarse outage tells a firing key exactly once unless already told, and keeps its counters |
| Degraded.OneDecisionPerRun | internal/alert/statemachine.go:25-55 | With distinct keys in the run, a key decides at most one thing, stamped with key and run id |
| AlertMap.RunProjects | internal/alert/statemachine.go:25-102 | A whole run over the map is, for each key, that key's own machine on its own observations plus one bit for its source; keys may repeat |
| AlertMap.RunsProject | internal/app/run.go:50-86 | The same over any sequence of runs from an empty state |
| AlertMap.SweepSentOf | internal/alert/statemachine.go:72-101 | The sweep says about each key exactly what its own step says, in whatever order the map is walked |
| AlertMap.OrderIrrelevant | internal/alert/statemachine.go:25-55 | Permuting observations with distinct keys gives the same map and the same multiset of decisions |
| Snapshots.KeyState.Clamp | internal/alert/statemachine.go:212-219 | In place: both remembered instants fall back to now, nothing else changes |
| Snapshots.Snapshot.HandleUnknown | internal/alert/statemachine.go:106-118 | In place: the map and the decision are those of the UNKNOWN transition |
| Snapshots.Snapshot.CountBreach | internal/alert/statemachine.go:125-134 | In place: the bookkeeping before any decision |
| Snapshots.Snapshot.DecideBad | internal/alert/statemachine.go:136-180 | In place: fire, escalate, de-escalate, remind or stay silent, as the BAD transition |
| Snapshots.Snapshot.HandleBad | internal/alert/statemachine.go:121-180 | In place: inserts or updates one record, all others untouched, decision as specified |
| Snapshots.Snapshot.RecordOK | internal/alert/statemachine.go:188-199 | In place: the bookkeeping of an OK |
| Snapshots.Snapshot.HandleOK | internal/alert/statemachine.go:184-208 | In place: forgets a pending key, counts or resolves a firing one, others untouched |
| Snapshots.Snapshot.Handle | internal/alert/statemachine.go:28-51 | In place: one observation with the mute rule is one step of the key's machine |
| Snapshots.Snapshot.SourcesDown | internal/alert/statemachine.go:63-68 | The checks collected are exactly those with a coarse UNKNOWN |
| Snapshots.Snapshot.SweepOne | internal/alert/statemachine.go:74-100 | In place: one key of the sweep, the others as they were |
| Snapshots.Snapshot.SweepDegraded | internal/alert/statemachine.go:62-102 | In place: the loop over the map sweeps every key once, in the order it met them |
| Snapshots.Snapshot.Advance | internal/alert/statemachine.go:25-55 | In place: the whole stage is the specified run over the map |
| Snapshots.Snapshot.PrunePendingAlerts | internal/state/io.go:124-130 | In place: deletes exactly the pending keys not seen this run |
| Snapshots.Snapshot.constructor | internal/state/io.go:16-34 | Loading puts every stored record into a fresh object |
| Snapshots.Snapshot.Encode | internal/state/io.go:38-47 | Encoding gives back exactly the records, so a load undoes it |
| Protocol.InvHolds | internal/app/run.go:49-109 | In every reachable state the state file (alerts, services, rings) is what the committed runs alone would have written, and the log holds a prefix of each run's posts |
| Protocol.CrashesLeaveNoTrace | internal/app/run.go:92-101 | Crashes, dry runs and failed saves leave the alert records, service records and disk rings of a process that never crashed, runs numbered 1, 2, 3 |
| Protocol.RunDecisions | internal/app/run.go:79 | A run stamps all it decides with its id, and decides at most one thing about any key it observes at most once |
| Protocol.DeliveredAtMostOnce | internal/app/run.go:96-104 | Posted run ids never go back nor exceed the durable counter; a key no run observes twice is posted about once a run, to different channels if routing lists none twice |
| Protocol.DeliveredWasDecided | internal/app/run.go:102-104 | Every post was decided, for that channel, by the committed run whose id it carries |
| Fires.DeliveredFireIsRemembered | internal/app/run.go:96-104 | After a delivered FIRE every later durable state has the key firing, unless the key's committed history has an all-clear since the event that made it |
| Fires.NoSecondFire | internal/app/run.go:96-104 | Two delivered FIREs of a key were made by one event of its committed history, or an all-clear lies between the two events that made them, even if the RESOLVED itself was lost |
| Fires.PostsMadeInOrder | internal/alert/send.go:51-52 | The events that made two posts about a key come in the order of the posts, whatever crashed |
| Fires.EventOf | internal/alert/send.go:51-52 | Every post has an event of its key's committed history that made its alert |
| Fires.ClosingRunIsAllClear | internal/alert/statemachine.go:184-208 | A key firing after some committed runs and not after more had an all-clear in those |
| Losses.LogCompleteExactly | internal/app/run.go:92-104 | In every reachable state the log is all that the committed runs had to post iff no process ended between its save and its last post and none is posting now |
| Losses.CrashLosesPosts | internal/app/run.go:96-104 | Whatever a process has to post, it can save and end with none of it posted |
| LostFires.UnsentWasMade | internal/app/run.go:96-104 | What a process left unposted was made at an event of its key's committed history |
| LostFires.CutIsFinal | internal/app/run.go:96-104 | What was committed and posted when a process was cut short stays so in every later state |
| LostFires.LostFireStaysLost | internal/alert/statemachine.go:170-178 | After a cut that left a FIRE unposted, as long as the key's committed history goes on with BADs of its tier within the cooldown, the log about the key stays what it was and the state file says firing |
| Protocol.DurableCountsWholeLog | internal/checks/crashloop.go:146-163 | Whatever crashed in between, the next run's crash ids from the state file and the corpses in sight are those of every crash any committed run saw |
| CrashLoopLaws.CountsOverConfiguredWindow | internal/app/run.go:164-169 | In every behaviour, with the configured window, or ten minutes if none is: what the check counts from the state file and the corpses in sight is the log of every crash any committed run saw, over that window |
| CrashLoopLaws.StoresConfiguredWindow | internal/app/run.go:81 | In every behaviour the state file still holds, for every crash within the configured window of the last instant read, an exit of that container at least as late |
| CrashLoopLaws.LoggedExactly | internal/checks/baseline.go:104-110 | That log holds exactly the exits that a sample which read Docker shows: a container of the service, exited, inspected, with a finish time, and an exit code other than 0 or killed for memory |
| Protocol.DurableRings | internal/checks/baseline.go:31-35 | Whatever crashed in between, every ring in the state file is the ring of all readings committed runs took of that filesystem |
| Delivery.PostsExact | internal/alert/send.go:51-56 | What is posted is exactly each decision to each of its channels that is defined with an address |
| Delivery.EveryChannelPosted | internal/alert/send.go:52-56 | With addresses as validated, every decision is posted to each of its channels in order, none skipped |
| Memories.ServicesFollow | internal/checks/baseline.go:37-54 | Over recorded runs every service's record follows its own machine from an empty file |
| Memories.MemoryCountsWholeLog | internal/checks/crashloop.go:146-163 | Over recorded runs the store counts as the log of every crash they saw |
| Memories.RingsHoldReadings | internal/checks/baseline.go:31-35 | Over recorded runs every ring is that of all readings of its filesystem |
| Memories.ReadingsExactly | internal/checks/baseline.go:31-35 | Those readings are exactly the used bytes of the filesystem's readable entries, each at its run's instant |
| Runners.Runner.Evolve | internal/app/run.go:79-82 | In place: advance, update every service and ring and the run counter, prune, as one specified run |
| Runners.Runner.RunOnce | internal/app/run.go:49-109 | In place: the exceptions are applied to the observations; then either the new state is durable and exactly its decisions are posted after the save, or nothing outside the process changes |
| Runners.Runner.Deliver | internal/alert/send.go:48-76 | In place: posts each decision to each of its channels in order, skipping those without an address, once each |
| Runners.RunOnceIsAPath | internal/app/run.go:49-109 | A committed run is a path of the crash-prone protocol, so its results speak about the code |
| Runners.AlwaysLoadable | internal/state/io.go:16-34 | Every state file that runs and crashes can leave is one that a run can load |
| SystemLaws.SystemStatusIsHistory | internal/alert/statemachine.go:25-208 | After any committed runs a key of the system fires iff its own observations say so by the reference rule |
| SystemLaws.SystemSpeaksGrammatically | internal/alert/statemachine.go:25-208 | What the whole system says about one key, unmuted, is a sentence of the episode grammar, however often its runs observe it |
| SystemLaws.OutageReachesEveryFiringKey | internal/alert/statemachine.go:57-102 | In an outage run every firing key of the check is told once, unless told before, and keeps its counters |
| Glob.GlobMatch | internal/checks/except.go:224-249 | The two-pointer loop terminates; what it accepts declaratively matches, and on a star-free subject it accepts all that does |
| Glob.LaterStarSuffices | internal/checks/except.go:233-236 | Committing to a later star loses no match |
| Glob.GrowRun | internal/checks/except.go:237-240 | When the stretch after the latest star fails, growing its run by one loses no match |
| Glob.ScanIsExact | internal/checks/except.go:224-249 | From every reachable position the scan answers the declarative question |
| Glob.AcceptsSoundly | internal/checks/except.go:224-249 | On every subject, stars included, what the matcher accepts does match |
| Glob.StarMisread | internal/checks/except.go:230 | For every subject with a star there is a pattern that matches and is refused |
| Glob.RightExactlyOnStarFree | internal/checks/except.go:224-249 | The matcher is right about a subject for all patterns iff the subject has no star |
| Exceptions.Apply | internal/checks/except.go:114-138 | The in-place loops leave each observation as the rules, top to bottom, make it, and append one warning per expired rule |
| Matching.MatchesExactly | internal/checks/except.go:68-90 | On containers without a `*`, a rule's match keys match iff each one given does by the declarative meaning: name, image, either service name, the label under the key before the first `=`; on any container they match no more than that |
| Matching.MutedExactly | internal/checks/except.go:117-148 | In the rule's and the container's fields: one rule suppresses an observation iff it is live, mutes its check or `*`, the check is none of the eight host-scoped ones, and each given key matches |
| Matching.MutedByAnyExactly | internal/checks/except.go:117-148 | Over any rules: suppressed iff it was, or some live muting rule describes the container |
| Matching.OneRuleExactly | internal/checks/except.go:140-182 | What else one rule does: a number for `crashloop.restarts` decides BAD or OK by the measured value, a tier is given to what is then BAD, OK leaves neither urgency nor fix, and nothing else changes |
| Matching.ExcludedExactly | internal/checks/except.go:92-109 | A container is left out of the budget iff a live rule that excludes describes it, by either of its service names |
| Matching.WarningsExactly | internal/checks/except.go:131-136 | Every expired rule is warned about, by an unsuppressed BAD at WARN, and no other is |
| Matching.WarnedOnce | internal/checks/except.go:204-214 | The warnings of rules at different places have different keys |
| Exceptions.SieveSkipsHost | internal/checks/except.go:120-122 | Host-scoped observations pass untouched |
| Exceptions.MuteOnlyRelabels | internal/checks/except.go:142-148 | After all rules the observation is still there under its key, and suppressed iff a live matching rule mutes its check, for the reason the last such rule gives |
| Exceptions.LastOverrideWins | internal/checks/except.go:149-182 | The last live matching override decides the verdict; without one the check's verdict stands |
| Exceptions.TierIsFinal | internal/checks/except.go:149-182 | The tier after all rules in closed form: WARN once an override lowered the observation, unless a later rule retiers it while BAD |
| Exceptions.QuietTier | internal/checks/except.go:173-181 | An observation that ends up not BAD has tier WARN if overridden, else its own; its fix is cleared iff some live matching override exceeds its value |
| Exceptions.LaterRuleWinsExactly | internal/checks/except.go:140-159 | A BAD observation has the tier that the last retier, or else the check, asks for, iff no override lowered it since and that retier met a BAD, or the tiers agree anyway |
| Exceptions.EarlierOverrideLowersTier | internal/checks/except.go:173-181 | Overrides 20 and then 5 on a count of 10 leave BAD at WARN without a fix, where 5 alone leaves BAD at ALERT |
| Exceptions.UnknownSurvivesExactly | internal/checks/except.go:161-182 | An observation leaves the stage UNKNOWN iff it entered so and no live matching rule overrides its threshold |
| Exceptions.OverrideMakesFalseAllClear | internal/checks/except.go:173-181 | Two blind runs under an override send RESOLVED |
| Exceptions.OverrideHidesOutage | internal/checks/except.go:173-181 | Under `name = "*"` the override makes a Docker outage look healthy |
| HonestClears.HarmlessIsHonest | internal/checks/except.go:161-182 | If for none of the containers that may speak for a service the last live override asks for a positive number, or all are muted, every all-clear of every history was really measured |
| HonestClears.HarmfulRulesClearBlindly | internal/checks/except.go:173-181 | Otherwise, a history the program can meet: the service fires under the name of one container and is cleared unread under that of the same or another |
| HonestClears.AllClearWasMeasuredExactly | internal/checks/except.go:161-182 | Given the rules, a service and the containers that may speak for it: all all-clears of all histories the program can meet were completed by real measurements iff the rules are of the first kind |
| Crashloop.Representative | internal/checks/crashloop.go:108-125 | The container that names a service: a running one if any, else the last to finish, then the last to start |
| Crashloop.Evaluate | internal/checks/crashloop.go:23-44 | One observation for each service of the sample, with the verdict and count found of it, or the coarse one |
| Crashloop.OneReportEach | internal/checks/crashloop.go:39-43 | Each service in the sample is reported on exactly once under its key, no other is |
| Crashloop.ReportsAreDistinct | internal/checks/crashloop.go:31-43 | The keys of the check are distinct in every run |
| Crashloop.CoarseExactly | internal/checks/crashloop.go:23-29 | The check's own reports look like an outage iff Docker could not be read, or a service named "docker" could not be inspected and showed no crash |
| Crashloop.SweepSeesOutageExactly | internal/alert/statemachine.go:63-68 | The sweep, after the rules, takes the check's source for down iff in addition no live rule that matches that report overrides its threshold |
| QuietClears.ClearedServiceWasQuiet | internal/checks/crashloop.go:46-98 | Without an override a firing service is cleared only over `resolve_samples` different runs that read Docker and found fewer crashed containers than the limit in the whole log, and fewer restarts since the baseline |
| QuietClears.LoudServiceFires | internal/checks/crashloop.go:46-98 | Without an override or a mute a service is firing after as many runs in a row as the threshold asks for that found the limit or more in the whole log |
| QuietClears.SystemSees | internal/app/run.go:76-79 | What the check reports and the rules pass on is what that law asks of a service's history |
| CrashLoopLaws.ReportExactly | internal/checks/crashloop.go:46-98 | A service's report in the fields of the sample and the state file: UNKNOWN iff no crash is known and a running container was not inspected, else BAD, at ALERT, iff the measured value reaches the limit; it is at least each container's restarts since a baseline of this boot, and only crashes without one |
| CrashLoopLaws.LoudServiceFiresInSystem | internal/app/run.go:49-109 | In every behaviour of the protocol, over the configured window: after as many committed runs in a row as the configuration asks for that found the limit or more of all crashes ever seen, the service is firing in the state file |
| CrashLoopLaws.ClearedServiceWasQuietInSystem | internal/app/run.go:49-109 | In every behaviour, over the configured window: it is cleared only at the end of `resolve_samples` different committed runs that read Docker and found fewer crashes and fewer restarts than the limit |
| Services.MergeExitEvents | internal/checks/baseline.go:85-102 | The result lists, each id once, exactly the last instant written per id by stored and visible crashes inside the cutoff |
| Services.CountWindowCrashes | internal/checks/crashloop.go:148-163 | The count is the number of distinct ids with an exit in the window, stored or visible |
| CrashFacts.CountedExactly | internal/checks/crashloop.go:146-163 | In the containers' fields: an id is counted iff a stored exit of it is in the window, or a container of it in sight is exited, inspected, finished in the window, and had an exit code other than 0 or was killed for memory |
| CrashFacts.StoredExactly | internal/checks/baseline.go:85-110 | An id is stored iff a stored exit of it or such a container is not before the cutoff; the instant is that of one of them |
| CrashFacts.CleanExitsDoNotCount | internal/checks/baseline.go:104-110 | Deleting clean exits from any sample changes neither what is stored nor what is counted |
| CrashFacts.CleanExitsLeaveTheLog | internal/checks/baseline.go:104-110 | Nor, over any runs, the log of all crashes |
| CrashFacts.CleanExitsLeaveDeltaExactly | internal/checks/crashloop.go:127-135 | It leaves the restart delta as it is iff no clean exit counts more restarts than the baseline and than all the other containers |
| CrashFacts.CleanExitsLeaveVerdictExactly | internal/checks/crashloop.go:46-98 | It leaves the verdict as it is iff the verdict does not hang on restarts, or no clean exit counts `limit` above the baseline, or another container does |
| CrashFacts.CleanExitDecides | internal/checks/crashloop.go:127-135 | One container that restarted five times and then exited with 0 makes its service BAD at a limit of 5 |
| Services.StoreCovers | internal/checks/baseline.go:37-53 | Over any runs, clock steps, outages and deletions, the store holds only logged crashes and covers all from any instant no run pruned beyond |
| Services.StoreCountsWholeLog | internal/checks/crashloop.go:146-163 | The bounded store plus visible corpses has the same crashed ids in the window as the log of every crash ever seen |
| Services.SecondApartIsClear | internal/checks/crashloop.go:146-163 | Runs at least a second apart meet the condition of the row above |
| Services.CountsExactlyWhenClear | internal/checks/crashloop.go:146-163 | For given clock readings, store and log agree for every past iff no earlier cutoff lies beyond the start of the second in which the last window begins |
| Services.WholeSeconds | internal/checks/crashloop.go:152 | Comparing whole Unix seconds is comparing with the start of the cutoff's second |
| Services.DeltasTelescope | internal/checks/crashloop.go:56-65 | Over any runs with outages and failed inspects, the deltas add up to the restarts after every run iff every inspected run reported truly, which is said of the record: kept, re-created over zero, or gone with nothing new |
| Services.BaselineHolds | internal/checks/baseline.go:39-54 | Over any such runs the record holds the last inspected count, or is gone, or was re-created with zero, and which of these is read off the runs |
| Services.DeltaIsTrueExactly | internal/checks/crashloop.go:56-65 | After any such runs an inspected run reports the restarts since the last inspected one iff the record was kept, or re-created over zero, or gone with nothing new |
| Services.DeltasBalance | internal/checks/crashloop.go:56-65 | The deltas add up to last inspected count minus baseline plus an explicit excess per run that follows a lost record |
| Services.RememberedCrashKeeps | internal/state/io.go:134-140 | Where every outage meets a remembered crash nothing is lost and the deltas telescope |
| Services.OutageKeeps | internal/state/io.go:134-140 | A Docker outage keeps a record that remembers a crash and deletes one that does not |
| Services.DeltaAcrossOutage | internal/checks/baseline.go:39-54 | After an outage and any number of uninspected runs the next inspected run reports truly iff the record remembered a crash, or was re-created over a count of zero, or was not re-created and nothing restarted |
| Services.OutageFabricatesDelta | internal/checks/baseline.go:42-47 | A record deleted in an outage and re-created by any number of uninspected runs makes the next inspected run report the whole restart count |
| Baselines.GroupByService | internal/checks/crashloop.go:100-106 | Every service gets exactly its containers, in order |
| Baselines.OfServiceExactly | internal/checks/crashloop.go:100-106 | A container is grouped under a key iff it is in the sample and that is its service key |
| Collect.ServiceKeyExact | internal/collect/sample.go:137-166 | Key and name of a service in the container's labels: the Swarm service, else the compose service after its project, else the container's name; an empty label counts as none |
| Baselines.MaxInspectedRestartCount | internal/checks/baseline.go:69-81 | The greatest restart count of the inspected containers, and whether there is one |
| CrashFacts.MaxInspectedExact | internal/checks/baseline.go:69-81 | None inspected, or a count that is reached by an inspected container and exceeded by none |
| CrashFacts.RecordIsOfLastSight | internal/checks/baseline.go:37-54 | Over any runs a record has the boot and the number of the last run that saw its service, and no less than the memory kills it read |
| CrashFacts.RebootHasNoDelta | internal/checks/crashloop.go:57-58 | After runs of other boots only, a run reports no restarts, whatever its containers count |
| Baselines.BaselineTable.UpdateBaselines | internal/checks/baseline.go:16-55 | In place: every filesystem's ring takes its readings, and every service, in the sample or not, exactly one step of its own machine |
| Baselines.BaselineTable.AddReading | internal/checks/baseline.go:31-35 | In place: one ring, created when absent, takes the reading; the others are untouched |
| Baselines.BaselineTable.constructor | internal/state/io.go:16-34 | Loading puts every stored ring into a fresh object |
| Baselines.BaselineTable.Encode | internal/state/io.go:38-47 | Encoding gives back exactly the memory, so a load undoes it |
| Baselines.BaselineTable.UpdateService | internal/checks/baseline.go:39-52 | In place: one service takes its step, the others are untouched |
| Baselines.BaselineTable.PruneServices | internal/state/io.go:134-140 | In place: forgets exactly the services unseen this run and without events |
| Baselines.EvalService | internal/checks/crashloop.go:46-98 | UNKNOWN iff no crash is known and a running container was not inspected, else BAD iff the measured value reaches the limit; with a baseline of this boot that value is at least every container's restarts since, and equals one of them or the distinct crashes in the window; without one it equals the latter |
| Services.MaxRestartsExact | internal/checks/crashloop.go:127-135 | No container counts more restarts than the greatest, and one counts as many unless it is 0 |
| Services.DeltaExactly | internal/checks/crashloop.go:56-65 | With a baseline of this boot the delta is at least every container's count less the baseline, and equals one of these or 0; else it is 0 |
| CrashFacts.RestartsAreBad | internal/checks/crashloop.go:56-98 | One container `limit` restarts above the baseline makes a fully inspected service BAD, whatever the others did |
| CrashFacts.OrderIrrelevant | internal/checks/crashloop.go:46-98 | Containers in any order give the same crashes, the same delta and the same verdict |
| Baselines.VerdictCountsWholeLog | internal/checks/crashloop.go:46-98 | With the restart delta of the stored record, the verdict from the bounded store is the one the unbounded log would give |
| Baselines.VerdictIsOfHistory | internal/checks/crashloop.go:46-98 | For a one-container service whose record was kept, an inspected run's verdict is that of the full crash log and of the restarts since the last inspected run |
| Disk.DiskRing.Add | internal/state/model.go:87-92 | In place: after any readings the ring is exactly the last 64 of them, or all if fewer |
| Disk.RingKeepsLast | internal/state/model.go:87-92 | Adding one at a time and cutting to 64 gives exactly the last 64 readings of any history, or all of them |
| Disk.EwmaSlope | internal/checks/disk.go:93-111 | The loop averages the slopes of the forward steps, and says whether there is one |
| Disk.SlopeExact | internal/checks/disk.go:98-104 | A slope is bytes per second between two readings |
| Disk.RateKnownExactly | internal/checks/disk.go:84-111 | A rate is known iff something was read before and the clock went forward between some two readings in a row |
| Disk.SteadyFill | internal/checks/disk.go:84-111 | A disk that fills at a steady rate is reported to fill at that rate, however unevenly it was read |
| Disk.BlendContracts | internal/checks/disk.go:107 | Averaging in v slopes shrinks a difference in the start by exactly 2^v |
| Disk.EwmaWithin | internal/checks/disk.go:93-111 | The average lies between the least and the greatest slope |
| Disk.RingErrorBound | internal/checks/disk.go:84-111 | The rate from the ring differs from the rate over the whole history by at most (hi - lo) / 2^v, given exactly; not at all when no forward step was dropped |
| Disk.FullRingHas64Steps | internal/state/model.go:86-92 | A full ring on an advancing clock has v = 64 |
| Disk.EvalOne | internal/checks/disk.go:29-80 | The step-by-step verdict is the worst of level and trend |
| Disk.JudgedExactly | internal/checks/disk.go:41-79 | In the configuration's fields: BAD iff at the warning level or full within the configured days at the present rate; then at ALERT iff at the alert level or full in time |
| Disk.RateRises | internal/checks/disk.go:84-111 | Raising the current reading never lowers the rate |
| Disk.VerdictIsMonotone | internal/checks/disk.go:29-80 | With validated thresholds and a fixed ring, a fuller disk is never judged milder |
| Disk.AlertLevelAlwaysAlerts | internal/config/validate.go:121-126 | Validated thresholds make the top level always BAD at ALERT; reversed ones do not |
| Budget.Evaluate | internal/checks/containers.go:72-122 | The early-exit loop gives the closed-form verdict, UNKNOWN iff memory or Docker could not be read or a running container that is not excluded was not inspected |
| Budget.OneMoreContainer | internal/checks/containers.go:85-109 | One more container, anywhere in the list, adds its limit, or else the greater of floor and known working set, iff it is running and not excluded; none add up to nothing |
| Budget.UsableExactly | internal/checks/containers.go:111 | What may be used is the memory less the reserve, to less than one byte |
| Budget.OverBudgetExactly | internal/checks/containers.go:111-121 | A known sum is BAD iff it exceeds, as a percentage of all memory, what the reserve leaves: rounding down never decides |
| Budget.OrderIrrelevant | internal/checks/containers.go:85-109 | Containers in any order give the same verdict |
| Budget.MoreNeverRelieves | internal/checks/containers.go:85-121 | Adding inspected containers keeps BAD; adding a counted one that was not inspected forces UNKNOWN |
| InspectFanOut.StepKeepsInv | internal/collect/collect.go:113-128 | In every step tokens held are workers inside and within the limit, each slot holds only its own worker's result, and work decreases |
| InspectFanOut.SlotWrittenAtMostOnce | internal/collect/collect.go:115-127 | In every interleaving a slot is written at most once, and never after its worker is done |
| InspectFanOut.NoDeadlock | internal/collect/collect.go:119-124 | While a worker is unfinished some worker can move, deadline or not |
| InspectFanOut.ScheduleKeepsInv | internal/collect/collect.go:112-128 | The invariant holds after every schedule, and steps taken are bounded by work removed |
| InspectFanOut.ScheduleIrrelevant | internal/collect/collect.go:112-131 | Every complete interleaving returns all tokens within three steps per container, and the containers depend only on per-container results |
| InspectFanOut.NoDeadlineNoSkip | internal/collect/collect.go:115-127 | A container is skipped only if its worker gave up at the deadline |

## Left out

- Slack rendering, HTTP, retry after 429, heartbeat, mentions: a post appends to a log, whether or not the channel accepts it.
- Docker, procfs, cgroup and statvfs reading: samples are inputs.
- Command line, packaging, TOML decoding, environment expansion; of config validation, only the conditions used as preconditions.
- JSON and file-system detail of load and save; a corrupt or version-mismatched file, which resets the state; the swap counters, boot id and last run time in it; two processes at once.
- Report building, redaction and human-readable strings; the warming flag is not kept.
- The checks `mem_pressure`, `committed_as`, `disk_inodes`, `unbounded_mem` and `swap_thrash`, and the registry that runs all checks.
- Floating-point rounding, 64-bit overflow, duration saturation and the monotonic clock reading: integers are unbounded and rates are reals.
- Expiry dates and tier names inside exception rules: `expired` and the parsed tier are inputs.
- Strings are sequences of characters, not bytes.
- Service records are values in a map that the table's methods reassign, and an observation is a value in an array; the sharing of a record through a pointer is modelled for alert records and disk rings.
- The order in which Go walks a map is free: a run carries the order its sweep used, and event lists are specified up to order.
- Services.DeltasTelescope: covers one-container services during one boot, for which a sum of deltas has a meaning; a service's delta is a maximum over its containers.
- Runners.Runner.RunOnce: takes the sample and what all the checks made of it as inputs; only the crash-loop check is tied to its sample, by `CrashLoopLaws`.
- Runners.Runner.Deliver: hands each post over once and does not model what the channel answers.
- Exceptions.Apply: abbreviates the threshold and expiry texts.
- Protocol.DeliveredAtMostOnce: says "once a run" of keys that no run observes twice; of others it says that run ids do not go back, and the event-level laws say the rest.
- QuietClears.ClearedServiceWasQuiet: takes restarts as counted from the stored baseline; what that baseline is worth is said by `Services`.
- Crashloop.Evaluate: leaves the order of the observations free and the texts empty.
- Services.CountsExactlyWhenClear: takes cutoffs more than a nanosecond after Go's zero time, which marks a container that never finished.
