# What the orchestrator and its dashboards keep

This project models the parts of agentic-collab in which several asynchronous actors share one
store, and the printers, parsers and scanners around them, and proves what they keep.

The orchestrator is one event loop. Health polls, message delivery, the stale-proxy sweep and
lifecycle operations suspend at `await`s and write agent rows through a version-checked update. The
dashboard holds a cached copy of the message log. Queue rows, reminders and teams are tables that
are updated row by row. Engine configurations, persona frontmatter, the composer prefix and sketch
fences are printed and read back.

## How it is modelled

- **Health monitor** (`agents-table`, `health-spec`, `health-runs`, `health-properties`,
  `health-effects`, `frozen-panes`, `health-examples`, `health-monitor`,
  `health-loop`). A poll is cut at its awaits into uninterrupted stretches; a world is the table,
  the monitor's maps, the suspended polls and a clock; a run interleaves stretches with deliveries,
  proxy sweeps (one step per agent on the proxy), outside versioned writes, creation and deletion.
  Pane text, regexes and JSON decoding are functions of an `Oracle` that nothing is assumed about.
  `birth`, the log of landed writes, the list of captures and the history of checks are history
  variables on which no operation branches. The class `HealthMonitor` updates the maps in place and
  each method is tied to the specification function of its stretch; `EventLoop` keeps the pending
  polls, and every sequence of its calls is a run.
- **Message replica** (`message-rows`, `dashboard-spec`, `replica-segments`, `replica-runs`,
  `replica-contents`, `replica-examples`, `dashboard-events`, `dashboard-effects`, `dashboard`). Server log, one tab, its local cache and one connection with
  messages in flight. `known`, `storeKnown` and `base` are history. Time stamps are integers. A row
  is inserted and broadcast in one step, and the two cache writes may be separated by a reload.
- **Feed paging** (`feed-paging`), **delivery queue** (`delivery-queue`, `pending-queue`),
  **reminders** (`reminders`) and **teams** (`teams`) are tables as maps with an autoincrement
  counter and a clock in seconds.
- **Engine YAML** (`engine-yaml*`). The printer produces a list of lines, the parser is the line
  state machine over about a dozen variables, both on actual characters. A JSON text inside a field
  is kept as the value it encodes, which is the assumption that the JSON codec is its own inverse.
- **Sketch fences, composer, Telegram frontmatter, fuzzy match, docs renderer**
  (`sketch-placeholders`, `composer`, `telegram-frontmatter`, `telegram-reading`, `fuzzy-match`, `docs-render`) work on
  characters too. `js-text` holds JavaScript's white space, line ends and trimming. A Dafny
  character stands for a whole code point where JavaScript has UTF-16 units.
- **Persona sync** (`persona-sync`) is generic in the field registry.
- **Archived markdown block pass** (`markdown-blocks`): a line is what the pass asks about it, and
  nothing is assumed about how the answers hang together.

## Where the code does not keep what one would expect

Each of these is proved with a concrete input or run. A lemma whose name ends in `Iff` states exactly
when the code does keep it; where none is named, only the direction given in words is proved.

- A version check only protects one incarnation: deleting and recreating an agent restarts its
  version (`HealthExamples.RecreationDefeatsTheVersionCheck`). Within one incarnation every landed
  write starts from the state it read (`HealthRuns.MonitorWritesAreDisciplined`).
- Agents named `x` and `shell_x`, or `x` and `heal_x`, share a counter
  (`HealthProperties.CollidingNamesShareEvidence`, `CollidingNamesShareHeals`). Which names share keys
  is `HealthProperties.SeparateIff`; with separate keys every verdict has its own evidence.
- With an idle threshold below one, the verdict and the length of the quiet suffix can disagree
  (`HealthProperties.IdleVerdict`).
- A pane that never moves can heal. After a *capture* failure the stored snapshot is the trimmed one, so
  it does if it differs from that, shows no prompt and a live sign (`FrozenPanes.FrozenPaneHealsIff`).
  After an *exit* verdict the pane itself is stored, and then it heals only once a third refusal has
  replaced the snapshot (`FrozenPanes.FrozenAfterExit`). Captures begun before the verdict can do that,
  because the source stores the snapshot before its write is rejected
  (`HealthExamples.LateRefusalsHealAFrozenPane`).
- The echo of a sent message takes the place of the optimistic row. If another row of the agent
  arrived in between, ids stand out of order, and the 200-row cap can later drop a row and keep an
  older one (`ReplicaExamples.EchoCanLoseARow`). Order is kept exactly when the echo stands last
  (`ReplicaRuns.ReceiveInOrderIff`), and the cut is complete exactly when every row dropped is older
  than every row kept (`ReplicaSegments.CapIff`).
- The watermark is read from the cache that all tabs share, so it may lead the tab that sends it
  (`ReplicaExamples.LeadingWatermarkLosesARow`, `ReplicaSegments.DeltaGapFreeIff`).
- A row that is withdrawn while a tab is away is not among the rows after its watermark, so it stays
  unmarked after a delta init (`ReplicaExamples.WithdrawnWhileAway`). While the connection lives on
  the tab shows the log's own rows (`ReplicaContents.ConnectedShowsTheLog`).
- The feed query has no `MIN(id)` although its comment asks for it. The comment is modelled. With the
  largest id of each group, a message is listed twice exactly when a page boundary falls between two of
  its rows (`FeedPaging.LargestIdRepeatsIff`). Either way the walk relies on the clock: it lists every
  message once, for every page size, exactly when creation time never falls with id among the logical
  messages (`FeedPaging.WalkListsOnceIff`). `FeedPaging.LargestIdListsTwice` and
  `FeedPaging.ClockStepBackSkipsARow` are small logs on which each goes wrong.
- A stale reset never fails a row and hastens it exactly when the row is stale and due more than 30
  seconds later (`DeliveryQueue.ResetMakesDueEarlierIff`). The exponential backoff since the first
  failure survives every run for the first two retries and not for the third and fourth
  (`DeliveryQueue.EveryRunBacksOffIff`, `DeliveryQueue.ResetBreaksBackoff`).
- Swapping a completed reminder with a pending one can give two reminders one order
  (`Reminders.SwapKeepsOrderedIff`, `Reminders.SwapWithCompletedListsTwo`).
- `setAgentTeams` checks membership with the name as given but adds the trimmed name, and throws
  midway on a name of more than 64 characters (`Teams.TeamTable.SetAgentTeams`).
- The engine YAML loses single quotes that enclose a badge or style, turns a numeric capture regex
  into a number, reads an empty engine as a button, and does not see a button whose name every
  JavaScript object inherits, such as `toString` (`EngineYamlWhole.BadgeSurvivesIff`,
  `CaptureRegexSurvivesIff`, `EmptyEngineBecomesAButton`, `InheritedNameIsNoButton`).
- A chat id in two pairs of quotes is read differently at every pass
  (`PersonaSync.DoublyQuotedIsUnstable`); `PersonaSync.BindingRoundTripIff` has the exact condition.
- Well-formed headings are not enough for the docs renderer to end
  (`DocsRender.WellFormedHeadingsDoNotSuffice`); `DocsRender.TerminatesIff` has the exact condition.

## Model

| member | source | states |
|---|---|---|
| AgentsTable.AgentTable.UpdateAgentState | src/orchestrator/database.ts:484-533 | the update lands exactly when the presented version is the row's; the row then has the given state, a version one larger, the columns its extra fields name and every other column as before, and no other row changes; otherwise nothing changes |
| AgentsTable.WriteOutcome | src/orchestrator/database.ts:484-533 | the exact row after a versioned update for each set of extra fields: a failure stores its time and reason, clearing one empties both, a touch sets the activity time, a context percentage sets both its columns |
| AgentsTable.EqualCountsMeanNoWrite | src/orchestrator/database.ts:501-533 | if the count of landed writes of one incarnation is the same at two moments, no write of it landed in between |
| HealthRuns.StepKeepsWorld | src/orchestrator/health-monitor.ts:378-433 | every stretch and every outside step keeps versions equal to the number of landed writes, every suspended record a record that was really read, and every monitor write disciplined |
| HealthRuns.MonitorWritesAreDisciplined | src/orchestrator/health-monitor.ts:529-560 | in every interleaving every write the monitor lands starts from the state it read and follows active to idle, idle to active, active or idle to failed, failed to active, or stays put |
| HealthRuns.PassingTheCheckMeansNoWriteBetween | src/orchestrator/database.ts:501-505 | a record that still passes the version check later in the same incarnation means that no write landed since it was read, and the state is the one read |
| HealthRuns.StalePollOnlyReReads | src/orchestrator/health-monitor.ts:437-560 | when a poll resumes after its record has gone stale, no write that presents the record lands (capture failure, exit verdict, heal); every write that does land re-reads the row and presents the version it then has; a refusal or a heal check changes no row |
| HealthExamples.RecreationDefeatsTheVersionCheck | src/orchestrator/database.ts:561-570 | a run from the empty world in which refusals of captures begun for a deleted agent mark a new agent of that name, still spawning, as failed |
| HealthEffects.TransitionOutcome | src/orchestrator/health-monitor.ts:529-560 | exactly what row results: a verdict that is not idle wakes an idle row read as idle and notes the time; an idle verdict puts an active row read as active to sleep exactly when the configured grace, or ten seconds, has passed since the last activity; nothing else changes |
| HealthEffects.CaptureEffect | src/orchestrator/health-monitor.ts:437-471 | the third refusal in a row of a current record fails the agent with time and reason; any other refusal is only counted, an answer resets the count |
| HealthEffects.ExitEffect | src/orchestrator/health-monitor.ts:578-657 | a shell sign more than a minute after a heal is counted, and the second in a row of a current record fails the agent, stores the pane and notes time and reason |
| HealthEffects.HealEffect | src/orchestrator/health-monitor.ts:692-776 | the second live pane in a row unlike the stored snapshot of a current record makes the agent active with the failure cleared; any other sign or row resets or counts and changes nothing |
| HealthEffects.FirstPaneIsBaseline | src/orchestrator/health-monitor.ts:692-776 | the first pane of a failed agent without a snapshot becomes its snapshot unless it shows a prompt |
| HealthEffects.ContextEffect | src/orchestrator/health-monitor.ts:477-522 | a context percentage found in the pane is stored with the time, on the row as it is now |
| HealthEffects.DetectionIsFresh | src/orchestrator/health-monitor.ts:158-199 | with a coherent cache the detection used is a fresh parse of what the engine stores now |
| HealthEffects.CacheStaysCoherent | src/orchestrator/health-monitor.ts:158-199 | over every run the cache holds only what its texts parse to |
| HealthEffects.DiffEffect | src/orchestrator/health-monitor.ts:201-252 | a capture that an active pattern matches, or that moved with no idle pattern matching, starts the count again and notes the time unless it is a first one; a quiet one adds one to it |
| HealthEffects.CheckEffect | src/orchestrator/health-monitor.ts:201-252 | the verdict is idle exactly when the capture, 30 lines of it unless configured, is quiet and the count has reached the configured threshold, or two |
| HealthEffects.LivePaneEffect | src/orchestrator/health-monitor.ts:403-431 | over context, screen diff and transition together: the state and activity time the row comes to, and exactly one landed entry for each |
| HealthEffects.FullPollEffect | src/orchestrator/health-monitor.ts:403-431 | a step of a run: an answered full poll without exit verdict leaves an idle agent active after a capture that is not quiet, an active one idle after an idle verdict past the grace, with one entry in the log |
| HealthEffects.FastPollEffect | src/orchestrator/health-monitor.ts:333-339 | a step of a run: an answered fast poll puts an active agent to sleep on an idle verdict past the grace and does nothing else |
| HealthEffects.ActivityStep | src/orchestrator/health-monitor.ts:309-331 | an activity answer that has not moved, without patterns, ends the poll with an idle verdict; any other goes on to the capture |
| HealthEffects.StartEffect | src/orchestrator/health-monitor.ts:307-390 | which agents a poll begins for, and that beginning changes no row |
| HealthEffects.RefusedPollEffect | src/orchestrator/health-monitor.ts:437-471 | a step of a run: the third refused capture of a current record fails the agent, an earlier one changes no row |
| HealthEffects.ExitPollEffect | src/orchestrator/health-monitor.ts:578-657 | a step of a run: the second shell sign in a row fails the agent |
| HealthEffects.HealPollEffect | src/orchestrator/health-monitor.ts:663-776 | a step of a run: the second live pane in a row revives the agent |
| HealthEffects.ActorEffect | src/orchestrator/database.ts:484-570 | the other actors: what a delivery, a sweep of a proxy, an outside write, creation and deletion do to every row |
| HealthProperties.QuietSuffixIsLongest | src/orchestrator/health-monitor.ts:201-252 | the suffix that the counter measures is quiet throughout and no longer suffix is |
| HealthProperties.CounterIsQuietSuffix | src/orchestrator/health-monitor.ts:201-252 | throughout every run the counter of every agent is the length of the longest quiet suffix of its captures since the last cleanup |
| HealthProperties.IdleVerdict | src/orchestrator/health-monitor.ts:201-252 | idle exactly when the newest capture is quiet and the quiet suffix has reached the threshold; the first condition matters exactly for thresholds below one |
| HealthProperties.IdleOnlyAfterGrace | src/orchestrator/health-monitor.ts:529-548 | a step that turns an agent idle is one of its own polls, and no activity was detected within the grace period |
| HealthProperties.RunsGoIdleOnlyAfterGrace | src/orchestrator/health-monitor.ts:529-548 | the same over whole runs |
| HealthProperties.SeparateIff | src/orchestrator/health-monitor.ts:579 | the counters of a set of agents never share a key exactly when no agent is named like another's shell or heal counter |
| HealthProperties.CollidingNamesShareEvidence | src/orchestrator/health-monitor.ts:578-657 | with the names `x` and `shell_x` one shell prompt is enough to fail an agent |
| HealthProperties.CollidingNamesShareHeals | src/orchestrator/health-monitor.ts:692-776 | with the names `x` and `heal_x` one live pane is enough to heal an agent |
| HealthProperties.RunNeedsEvidence | src/orchestrator/health-monitor.ts:578-657 | over whole runs a capture failure has three, an exit failure two and a heal two successive positive checks of that kind of that agent behind it |
| HealthProperties.HealsHaveTwoLivePanes | src/orchestrator/health-monitor.ts:692-776 | a heal has two successive panes behind it that showed no shell prompt, differed from the stored failure snapshot and carried a live signal |
| FrozenPanes.FrozenPaneHealsIff | src/orchestrator/health-monitor.ts:692-776 | of two heal polls that see one pane, anything lying between that answers no other capture of the agent, the first does not heal and the second does exactly when the pane differs from the stored snapshot, shows no prompt and looks alive |
| FrozenPanes.SnapshotStaysIff | src/orchestrator/health-monitor.ts:449-471 | while every answered capture gives the stored pane, a step keeps the snapshot exactly when it is no third refusal that stores another text |
| FrozenPanes.FrozenPaneNeverHeals | src/orchestrator/health-monitor.ts:692-776 | over runs: from the moment the snapshot is the pane, and while the pane stays, no heal lands before a third refusal has replaced the snapshot |
| FrozenPanes.DeadPaneNeverHeals | src/orchestrator/health-monitor.ts:692-776 | over runs: a frozen pane with a prompt or without a live sign never heals, whatever is stored |
| FrozenPanes.FrozenAfterExit | src/orchestrator/health-monitor.ts:578-776 | over runs: after an exit verdict a frozen pane heals only if it looks alive, shows no prompt, and a third refusal came in between |
| HealthExamples.LateRefusalsHealAFrozenPane | src/orchestrator/health-monitor.ts:449-471 | a run from the empty world on which it does: three captures begun before the verdict are refused after it |
| FrozenPanes.WhatFailureStores | src/orchestrator/health-monitor.ts:437-471 | an exit verdict stores the pane itself; a capture failure stores the last trimmed snapshot, or the empty text when there is none |
| HealthProperties.ExitFailuresAreBounded | src/orchestrator/health-monitor.ts:578-657 | if healing is the only way back from failed, a run of T ms holds at most T/60000 + 1 exit failures of an agent |
| HealthMonitoring.HealthMonitor.GetDetectionConfig | src/orchestrator/health-monitor.ts:158-199 | the cached compiled detection: the cache and the answer of the specification |
| HealthMonitoring.HealthMonitor.CheckScreen | src/orchestrator/health-monitor.ts:201-252 | counters, snapshots and verdict as `CheckScreenDiff` |
| HealthMonitoring.HealthMonitor.IdleTransitions | src/orchestrator/health-monitor.ts:529-560 | the versioned write of an idle or active transition and no change of the monitor; which row results is HealthEffects.TransitionOutcome |
| HealthMonitoring.HealthMonitor.HandleCapture | src/orchestrator/health-monitor.ts:437-471 | refusals counted, the third in a row marks the agent failed and keeps its snapshot |
| HealthMonitoring.HealthMonitor.DetectExit | src/orchestrator/health-monitor.ts:578-657 | the exit check with its hysteresis and heal grace |
| HealthMonitoring.HealthMonitor.DetectHealed | src/orchestrator/health-monitor.ts:692-776 | the heal check with its hysteresis |
| HealthMonitoring.HealthMonitor.RecordContext | src/orchestrator/health-monitor.ts:477-522 | a context percentage is written without changing the state |
| HealthMonitoring.HealthMonitor.Cleanup | src/orchestrator/health-monitor.ts:782-794 | every map forgets the agent |
| HealthMonitoring.HealthMonitor.FastPollActivity | src/orchestrator/health-monitor.ts:309-331 | the stretch of a fast poll after its activity answer |
| HealthMonitoring.HealthMonitor.FastPollCapture | src/orchestrator/health-monitor.ts:333-339 | the stretch of a fast poll after its capture |
| HealthMonitoring.HealthMonitor.BeginFullPoll | src/orchestrator/health-monitor.ts:378-390 | the first stretch of a full poll |
| HealthMonitoring.HealthMonitor.FullPollActivity | src/orchestrator/health-monitor.ts:391-401 | the stretch of a full poll after its activity answer |
| HealthMonitoring.HealthMonitor.FullPollCapture | src/orchestrator/health-monitor.ts:403-431 | the stretch of a full poll after its capture, up to the queued reload |
| HealthMonitoring.HealthMonitor.FailedPollCapture | src/orchestrator/health-monitor.ts:663-690 | the stretch of a failed agent's poll after its capture |
| HealthMonitoring.HealthMonitor.BeginFastPoll | src/orchestrator/health-monitor.ts:307-315 | a fast poll begins only for an active agent on a proxy |
| HealthMonitoring.HealthMonitor.BeginFailedPoll | src/orchestrator/health-monitor.ts:663-665 | a heal poll begins only for a failed agent on a proxy |
| HealthLoop.EventLoop.Handle | src/orchestrator/health-monitor.ts:254-267 | one resumed stretch of the monitor is one step of the runs |
| HealthLoop.EventLoop.Run | src/orchestrator/health-monitor.ts:254-267 | the worlds that any sequence of the monitor's calls passes through are a run, so every theorem over runs holds of them |
| ReplicaRuns.RunStaysGapFree | src/dashboard/connection.ts:210-344 | along every run in which each delivered echo finds its optimistic row last, every thread, the cached threads and the rows in flight are at every moment ordered, gap-free stretches of the server's rows up to the highest id received |
| ReplicaRuns.RunStaysComplete | src/dashboard/state.ts:136-156 | without any assumption on echoes the same without order, if each cut at a cache write is safe |
| ReplicaRuns.StepKeepsGood | src/dashboard/connection.ts:44-55 | every server write, connection, delivery, drop, send, removal, cache write (whole, threads only, or cleared) and reload keeps completeness and a watermark that never leads |
| ReplicaRuns.StepKeepsOrder | src/dashboard/connection.ts:303-334 | every such step keeps server ids in order, if a delivered echo stands last |
| ReplicaRuns.ReceiveInOrderIff | src/dashboard/connection.ts:312-331 | receiving a newer row keeps the order exactly when nothing numbered stands after the optimistic row it replaces |
| ReplicaRuns.CaughtUp | src/dashboard/connection.ts:210-253 | with nothing in flight every thread runs up to the server's newest row |
| ReplicaRuns.WindowIsGapFree | src/orchestrator/database.ts:668-698 | a cold init holds, for every agent, the newest 200 rows in order without a gap |
| ReplicaRuns.ThreadsSinceIsDelta | src/orchestrator/database.ts:623-639 | a delta init holds exactly the rows after the watermark |
| ReplicaContents.ConnectedShowsTheLog | src/dashboard/connection.ts:208-344 | over runs: while the connection lives on and nothing is in flight, every server row shown is the very row of the log, its mark of a withdrawal included |
| ReplicaContents.ConnectedShowsEverything | src/orchestrator/database.ts:668-698 | over runs: after a cold init, as long as the connection lives on, the tab shows each agent's newest 200 rows at connecting and every row since, each as in the log |
| ReplicaContents.WindowIsNewest | src/orchestrator/database.ts:668-698 | the rows of a cold init are the newest 200 of each agent, as they stand in the log |
| ReplicaContents.StepEffect | src/dashboard/connection.ts:40-205 | what log, connection, threads, seen ids and cache are after every step: server writes, dialing, accepting, delivering, dropping, sending, a failed send, a removal, each way of writing or clearing the cache, and a reload |
| ReplicaExamples.EchoCanLoseARow | src/dashboard/connection.ts:318-328 | a run from an empty tab: a sent row whose echo comes after another row, 199 more rows, a cache write and a reload; then the tab shows a thread with a gap |
| ReplicaExamples.LeadingWatermarkLosesARow | src/dashboard/connection.ts:48-52 | a tab that holds row 1 and asks for the rows after 2 misses row 2 |
| ReplicaExamples.WithdrawnWhileAway | src/dashboard/connection.ts:222-236 | a run in which a row withdrawn while the tab is away stays unmarked after a delta init |
| ReplicaSegments.MergeKeepsGapFree | src/dashboard/connection.ts:222-236 | merging the rows after a lagging watermark leaves no gap |
| ReplicaSegments.MergeIncreases | src/dashboard/connection.ts:231-235 | a merged thread is in order whatever its order was |
| ReplicaSegments.DeltaGapFreeIff | src/dashboard/connection.ts:48-52 | with a watermark that may lead, the merge has no gap exactly when the thread held no server row or the agent has none between the two |
| ReplicaSegments.CapIff | src/dashboard/state.ts:140-143 | the capped thread is complete exactly when every row dropped is older than every row kept |
| MessageRows.SortRowsSorts | src/dashboard/connection.ts:233-235 | sorting gives the same rows in (createdAt, id) order |
| DashboardEvents.HandleKeeps | src/dashboard/connection.ts:208-344 | each WebSocket event keeps server ids unique, contained in the seen set, and the agent index exact; an init establishes all three |
| DashboardEvents.EventsKeep | src/dashboard/connection.ts:208-344 | the same from the first init on after any events |
| DashboardEvents.IdsAreUnique | src/dashboard/connection.ts:307-311 | a server id stands at one place at most over all threads, and is in the seen set |
| DashboardEvents.IndexIsExact | src/dashboard/state.ts:88-93 | the rebuilt index maps exactly the names of the agents to their records |
| DashboardEvents.SelectionStaysKnown | src/dashboard/connection.ts:256-295 | after an agents update the selection names only known agents, and the following agent events keep it so |
| DashboardEvents.CacheIsOwned | src/dashboard/state.ts:119-130 | what the cache restores is again fit for the first init |
| DashboardEffects.WithdrawnEffect | src/dashboard/connection.ts:335-344 | the first row of the withdrawn id in that agent's thread becomes the withdrawn row; every other row, every other thread and everything else stay |
| DashboardEffects.MessageEffect | src/dashboard/connection.ts:303-334 | a seen row changes nothing; any other takes the place of the newest waiting row among the last ten with its agent, text and direction, or else stands last; its id is seen from then on and no other thread changes |
| DashboardEffects.InitEffect | src/dashboard/connection.ts:210-253 | a cold init replaces the threads; a delta leaves in each thread all rows held and the incoming rows of other ids, in order of time and id; the seen ids are exactly the ids shown and the index has the last record of each name |
| DashboardEffects.AgentsEffect | src/dashboard/connection.ts:256-272 | roster and index are replaced, and of the selection exactly the known names stay |
| DashboardEffects.AgentEffect | src/dashboard/connection.ts:273-285 | the record stands in the slot of its name, or last when the name is new, and everything else stays |
| DashboardEffects.DestroyedEffect | src/dashboard/connection.ts:287-295 | the name is gone from agents, index, selection and threads; all the rest stays in order |
| DashboardEffects.CapEffect | src/dashboard/state.ts:136-156 | of each thread exactly the newest 200 server rows are cached, or all when there are fewer, in their order |
| DashboardState.Dashboard.HandleInit | src/dashboard/connection.ts:210-253 | threads merged or replaced, seen ids and agent index rebuilt |
| DashboardState.Dashboard.HandleAgentsUpdate | src/dashboard/connection.ts:256-272 | roster and index replaced, selection pruned, and whether anything was pruned |
| DashboardState.Dashboard.HandleAgentUpdate | src/dashboard/connection.ts:273-285 | the record replaced in its slot or appended, and indexed |
| DashboardState.Dashboard.HandleAgentDestroyed | src/dashboard/connection.ts:287-295 | agent, index entry, selection and thread removed; seen ids stay |
| DashboardState.Dashboard.HandleMessage | src/dashboard/connection.ts:303-334 | seen rows skipped, an optimistic row among the last ten replaced, any other row appended |
| DashboardState.Dashboard.HandleMessageWithdrawn | src/dashboard/connection.ts:335-344 | the row of that id overwritten in its thread, as DashboardEffects.WithdrawnEffect spells out |
| DashboardState.PruneSelection | src/dashboard/state.ts:206-221 | exactly the unknown names go, and their number is returned |
| DashboardState.ThreadCache.Persist | src/dashboard/state.ts:136-156 | capped threads first, then the largest kept id; a failure clears what it can |
| DashboardState.ThreadCache.Load | src/dashboard/state.ts:119-130 | the cached threads and watermark, or nothing and zero |
| FeedPaging.QueryLists | src/orchestrator/database.ts:785-800 | the query lists exactly one row for each group below the cursor, its smallest or largest id, newest first |
| FeedPaging.PageIsGood | src/orchestrator/database.ts:799-806 | if creation time does not fall with id among them, a page holds the rows of largest id below the cursor, descending, and `hasMore` tells whether any are left |
| FeedPaging.WalkListsEverything | src/orchestrator/database.ts:755-823 | following the last listed id until `hasMore` is false lists every logical message of the first log exactly once, descending, whatever is appended between pages, if creation time does not fall with id among those messages |
| FeedPaging.WalkEnds | src/orchestrator/database.ts:799-806 | such a walk ends within one page more than there are rows |
| FeedPaging.WalkListsOnceIff | src/orchestrator/database.ts:755-823 | for every page size the walk lists every logical message exactly once, descending, if and only if creation time never falls with id among the logical messages below the cursor, whatever is appended meanwhile |
| FeedPaging.LargestIdRepeatsIff | src/orchestrator/database.ts:785-797 | with the largest id of each group a finished walk lists a message twice exactly when a page boundary falls between two wanted rows of it |
| FeedPaging.LargestIdListsTwice | src/orchestrator/database.ts:785-797 | a log of three rows on which it does |
| FeedPaging.ClockStepBackSkipsARow | src/orchestrator/database.ts:797 | a log of two rows on which a step back of the clock hides the newer one |
| DeliveryQueue.NeverPendingAgain | src/orchestrator/database.ts:952-1021 | over every run a row that has left pending stays in the table and never returns, and a retry count never falls |
| DeliveryQueue.NeverTakenAgain | src/orchestrator/message-dispatcher.ts:220-237 | such a row is never handed out again |
| DeliveryQueue.StepEffect | src/orchestrator/database.ts:911-1052 | every column of every row after every step: a finish without error delivers its row at that time, a failure counts and backs off 30, 60, 120 and 240 seconds or fails the fifth time, a stale reset, a withdrawal and a clearing do what they say, and only queueing adds a row |
| DeliveryQueue.FlightEffect | src/orchestrator/message-dispatcher.ts:220-275 | who is in flight after every step, and that only a due row of an agent with nothing in flight is taken |
| DeliveryQueue.FinishDelivers | src/orchestrator/message-dispatcher.ts:267-275 | over runs: a finish without error leaves its row delivered at that time, its other columns untouched, in every later world, and it is never handed out again |
| DeliveryQueue.RetriesCountFailures | src/orchestrator/database.ts:964-982 | the retry count is at least the number of recorded failures, and five of them leave the row not pending |
| DeliveryQueue.FifthFailureFails | src/orchestrator/database.ts:964-982 | however many stale resets come between, the fifth recorded failure leaves the row failed |
| DeliveryQueue.RetryComesAfterBackoff | src/orchestrator/database.ts:972-980 | the hand-out after the k-th failure comes no earlier than 30(2^k - 1) seconds after the first failure: for k up to two in every run, for more if no stale reset hastens the row |
| DeliveryQueue.ResetMakesDueEarlierIff | src/orchestrator/database.ts:984-998 | a stale reset makes a row due at a time at which it would have waited exactly when the row is stale and its next attempt lies more than 30 seconds ahead |
| DeliveryQueue.EveryRunBacksOffIff | src/orchestrator/message-dispatcher.ts:86-193 | the k-th retry keeps the backoff in every run, whatever resets come between, exactly when k is at most two or no k-th retry exists |
| DeliveryQueue.ResetBreaksBackoff | src/orchestrator/database.ts:984-998 | for three and for four failures, a run in which a reset a minute after the last attempt hands the row out early |
| PendingQueueTable.PendingQueue.EnqueueMessage | src/orchestrator/database.ts:915-922 | a new pending row under a new id |
| PendingQueueTable.PendingQueue.GetDeliverable | src/orchestrator/database.ts:931-939 | exactly the due pending rows of the agent in id order |
| PendingQueueTable.PendingQueue.MarkAttemptStarted | src/orchestrator/database.ts:952-956 | only the attempt time of that row changes |
| PendingQueueTable.PendingQueue.MarkMessageDelivered | src/orchestrator/database.ts:958-962 | only status and delivery time of that row change; that it becomes delivered is DeliveryQueue.StepEffect |
| PendingQueueTable.PendingQueue.MarkAttemptFailed | src/orchestrator/database.ts:964-982 | one more retry, then failed at the fifth or backed off exponentially |
| PendingQueueTable.PendingQueue.ResetStaleAttempts | src/orchestrator/database.ts:984-998 | exactly the stale rows are counted, retried and put off by 30 seconds |
| PendingQueueTable.PendingQueue.CancelPendingMessage | src/orchestrator/database.ts:1019-1021 | a pending row fails, any other is left alone |
| PendingQueueTable.PendingQueue.ClearPendingMessages | src/orchestrator/database.ts:1050-1052 | exactly the agent's pending rows without a sender are deleted |
| Reminders.RunStaysOrdered | src/orchestrator/database.ts:1088-1154 | over every run whose swaps are safe an agent's pending orders stay distinct |
| Reminders.SwapKeepsOrderedIff | src/orchestrator/database.ts:1145-1154 | a swap keeps them distinct exactly when the order a pending reminder takes from a completed one is free |
| Reminders.DueIsElapsedTop | src/orchestrator/database.ts:1185-1200 | the due list holds exactly each agent's top reminder whose cadence has elapsed, at most one per agent |
| Reminders.StepEffect | src/orchestrator/database.ts:1088-1182 | every reminder after every step, column by column |
| Reminders.ListedIff | src/orchestrator/database.ts:1185-1200 | a reminder is listed exactly when it is pending, first of its agent, and 60 seconds per minute of cadence have passed since its last delivery or creation |
| Reminders.SwapWithCompletedListsTwo | src/orchestrator/database.ts:1145-1154 | a swap with a completed reminder gives an agent two due reminders |
| Reminders.ReminderTable.CreateReminder | src/orchestrator/database.ts:1088-1105 | refused under five minutes, else added behind the agent's last pending one |
| Reminders.ReminderTable.SwapReminderOrder | src/orchestrator/database.ts:1145-1154 | both orders exchanged if both exist for one agent, else nothing |
| Reminders.ReminderTable.CompleteReminder | src/orchestrator/database.ts:1133-1138 | only the status of that reminder changes |
| Reminders.ReminderTable.DeleteReminder | src/orchestrator/database.ts:1140-1143 | exactly that reminder goes, and whether it was there |
| Reminders.ReminderTable.GetTopReminder | src/orchestrator/database.ts:1156-1162 | a pending reminder of least order, or none when none is pending |
| Reminders.ReminderTable.ListDueReminders | src/orchestrator/database.ts:1185-1200 | exactly the pending, elapsed reminders at their agent's least order |
| Teams.TeamTable.SetAgentTeams | src/orchestrator/database.ts:1552-1564 | succeeds exactly when every wanted name is a team or at most 64 characters long and the agent's name is not blank where something must be added; then the agent belongs to exactly the wanted teams if its name is trimmed or nothing had to be added; where it stops, exactly the earlier names have been added; teams are only added, nobody else's membership changes, and a settled agent changes nothing |
| Teams.Reconciled | src/orchestrator/database.ts:1552-1564 | why the two loops together leave exactly the wanted memberships |
| Teams.WantedOnce | src/orchestrator/database.ts:1553 | the trimmed, non-empty names once each, in the order of first mention |
| Teams.TeamTable.CreateTeam | src/orchestrator/database.ts:1489-1508 | refused when empty, overlong or taken, else added under its trimmed name |
| Teams.TeamTable.AddTeamMember | src/orchestrator/database.ts:1528-1536 | refused for a blank name, else the trimmed name is a member |
| Teams.TeamTable.RemoveTeamMember | src/orchestrator/database.ts:1539-1545 | exactly that membership goes |
| EngineYamlWhole.RoundTrip | src/dashboard-v2-archive/settings.ts:22-373 | parsing a printed configuration gives every one of its fields and no other, nulls for the hooks it lacks included |
| EngineYamlRoundTrip.ReadsStep | src/dashboard-v2-archive/settings.ts:312-340 | the lines of a pipeline step are read as that step, capture sub-fields included |
| EngineYamlSections.ReadsIndicator | src/dashboard-v2-archive/settings.ts:270-311 | the lines of an indicator are read as that indicator with its actions |
| EngineYamlSections.ReadsDetection | src/dashboard-v2-archive/settings.ts:227-269 | the lines of the detection section are read as that section |
| EngineYamlWhole.GatheredButtons | src/dashboard-v2-archive/settings.ts:362-371 | the custom pipelines gathered at the end are exactly the configuration's buttons |
| EngineYamlWhole.BadgeSurvivesIff | src/dashboard-v2-archive/settings.ts:284-293 | a badge comes back exactly when single quotes do not enclose it |
| EngineYamlWhole.CaptureRegexSurvivesIff | src/dashboard-v2-archive/settings.ts:329-339 | a capture regex comes back as text exactly when it does not read as a number |
| EngineYamlWhole.InheritedNameIsNoButton | src/dashboard-v2-archive/settings.ts:204-226 | a lone key opens a button of its name exactly when it is no hook, section or inherited name |
| EngineYamlWhole.EmptyEngineBecomesAButton | src/dashboard-v2-archive/settings.ts:24 | an empty engine is read back as a button |
| EngineYamlValues.PairIff | src/dashboard-v2-archive/settings.ts:315 | for every line: it is a pair exactly when it is a word, a colon, white space and a value without line ends, and then with that key and value |
| EngineYamlValues.StepLineReads | src/dashboard-v2-archive/settings.ts:312-327 | for every step line: the one step it adds for each known key, and nothing otherwise |
| EngineYamlValues.WaitReads | src/dashboard-v2-archive/settings.ts:321-322 | a wait is the decimal number at the front of any text, five seconds when that is zero; EngineYamlValues.WaitDefaults is the text without a number |
| EngineYamlValues.NumericIff | src/dashboard-v2-archive/settings.ts:335-336 | a capture value is taken for a number exactly when it is empty, a radix literal, or a signed decimal with an optional point and exponent |
| EngineYamlCode.ConfigToYaml | src/dashboard-v2-archive/settings.ts:22-145 | the text joined from the lines pushed section by section |
| EngineYamlCode.YamlToConfig | src/dashboard-v2-archive/settings.ts:148-373 | the loop over lines computes the specification's parse |
| JsText.SplitJoin | src/dashboard-v2-archive/settings.ts:144 | splitting joined lines gives the lines back |
| SketchPlaceholders.ExtractRoundTrip | src/dashboard/sketch-chat.ts:40-78 | for every raw text extraction leaves NUL-free segments with sentinels 0 to n-1 once each in order, splitting recovers them, and segments and fences joined are the cleaned text |
| SketchPlaceholders.FencesAreFences | src/dashboard/sketch-chat.ts:50 | every fence cut out is an opening, blanks, one line end, and a body up to the first closing |
| SketchPlaceholders.CutIsLeftmost | src/dashboard/sketch-chat.ts:50-78 | no fence is missed: the cut takes the next fence that starts, goes on behind it, and in the texts between no fence starts |
| SketchPlaceholders.CleanLeaves | src/dashboard/sketch-chat.ts:66 | cleaning takes out exactly the NULs and leaves the rest in order |
| SketchPlaceholders.MatchedIffShape | src/dashboard/sketch-chat.ts:121 | exactly the texts NUL, SK, digits, NUL are sentinels, and the digits are the number |
| SketchPlaceholders.ReplaceIsSplice | src/dashboard/sketch-chat.ts:120-127 | replacing sentinels splices each rendering at its place and never looks at inserted text again |
| SketchPlaceholders.RenderedInPlace | src/dashboard/sketch-chat.ts:135-147 | if the callback turns the texts into texts without NUL and keeps the sentinels, each rendering stands where its fence stood |
| SketchPlaceholders.EscapedInPlace | src/dashboard/util.ts:12-20 | HTML escaping does so for every raw text: each rendering stands between the escaped texts around its fence |
| SketchPlaceholders.EscapeShowsText | src/dashboard/util.ts:12-20 | escaped text is shown as the text itself and holds no angle bracket and no quote |
| SketchPlaceholders.ExtractSketches | src/dashboard/sketch-chat.ts:58-78 | the scanning loop computes text and blocks of the specification |
| SketchPlaceholders.ReplaceSketchPlaceholders | src/dashboard/sketch-chat.ts:120-127 | the scanning loop computes the replacement of the specification |
| Composer.PrefixRoundTrip | src/dashboard/chat.ts:1451-1460 | parsing the printed prefix followed by a message gives the agents, the topics and the message |
| Composer.ParseReads | src/dashboard/chat.ts:1279-1305 | for every text the leading tokens are read off until none is left, known agents at any time and topics after an agent; agents and topics are kept once in the order of first mention, the topic is general when there is none, and the trimmed rest is the message |
| Composer.NeutralIsGeneral | src/dashboard/chat.ts:1477-1500 | neutralising is idempotent and leaves topic general with exactly the agents before the first leading topic |
| Composer.NeutralOnlyInsertsSpaces | src/dashboard/chat.ts:1477-1500 | neutralising only puts spaces in |
| Composer.NeutralEffect | src/dashboard/chat.ts:1477-1500 | exactly the leading topic tokens get one space after their mark |
| Composer.ParseComposer | src/dashboard/chat.ts:1279-1305 | the loop computes the specification's parse |
| Composer.NeutralizeLeadingTopics | src/dashboard/chat.ts:1477-1500 | the loop computes the specification's text |
| TelegramFrontmatter.SetThenParse | src/dashboard/util.ts:76-163 | a valid configuration written into any frontmatter is read back with its chat id trimmed, from exactly one block |
| TelegramFrontmatter.ClearThenParse | src/dashboard/util.ts:133-163 | null or an invalid chat id leaves no block to read |
| TelegramFrontmatter.SetTwice | src/dashboard/util.ts:133-163 | writing twice is writing once |
| TelegramFrontmatter.OtherLinesStay | src/dashboard/util.ts:133-163 | every non-blank line outside the old blocks stays, in order, before the new block |
| TelegramFrontmatter.KeptIsOutside | src/dashboard/util.ts:134-149 | the lines kept are exactly those not below a header with only blank or indented lines between |
| TelegramReading.ParseReads | src/dashboard/util.ts:90-116 | for any lines, under the first header each key has the trimmed and unquoted value of its last child before the block ends; the agent listens unless inbound is false, and an unknown routing is self |
| TelegramReading.HeaderIff | src/dashboard/util.ts:144 | which lines are headers, character by character, and which of them open a block to read |
| TelegramReading.ChildIff | src/dashboard/util.ts:101-102 | which lines are children, and with which key and value |
| TelegramReading.ValidChatIdIff | src/dashboard/util.ts:76-78 | which chat ids are valid, character by character |
| TelegramFrontmatter.NormalizesWritten | src/orchestrator/field-registry.ts:93-121 | the orchestrator's normaliser reads the written values as the same configuration |
| TelegramFrontmatter.SetFrontmatterTelegram | src/dashboard/util.ts:133-163 | the loops compute the specification's text |
| TelegramFrontmatter.ParseFrontmatterTelegram | src/dashboard/util.ts:90-116 | the loop computes the specification's parse |
| PersonaSync.SyncIsFixpointIff | src/orchestrator/field-registry.ts:283-377 | after building, upserting and reading back, no field differs exactly when every chat id is stable under one more trim and strip |
| PersonaSync.OwnColumn | src/orchestrator/field-registry.ts:254-307 | each written column holds its own field's value, in the update and in the insert |
| PersonaSync.OptionIsStored | src/orchestrator/field-registry.ts:283-377 | which frontmatter ends as which cell, kind by kind: a text as that text, a structured hook as its JSON, the start hook from `spawn` exactly when `start` is absent, an encoded value unless it is empty, an environment of texts and a Telegram block with their entries, anything absent as null |
| PersonaSync.OtherColumns | src/orchestrator/database.ts:459-471 | no other column changes |
| PersonaSync.BindingRoundTripIff | src/orchestrator/field-registry.ts:93-135 | a binding survives the table exactly when its chat id is already clean |
| PersonaSync.SyncOnce | src/orchestrator/database.ts:459-471 | the whole cycle: whether a change is reported, that each written column holds the cell its frontmatter calls for, and what stays |
| PersonaSync.BuildUpsertOpts | src/orchestrator/field-registry.ts:335-377 | the loop gives each field its own option; what that option is stored as is PersonaSync.OptionIsStored |
| PersonaSync.MapConfigFromRow | src/orchestrator/field-registry.ts:232-248 | the loop reads each field from its own column |
| PersonaSync.ConfigFieldsChanged | src/orchestrator/field-registry.ts:310-328 | true exactly when some compared field has another value |
| PersonaSync.DoublyQuotedIsUnstable | src/orchestrator/field-registry.ts:84-90 | a chat id that every pass reads differently |
| FuzzyMatch.Match | src/dashboard-v2-archive/voice-palette.ts:343-376 | a match exactly when the query is a subsequence; good ranges that spell it at the leftmost embedding; the score counts word starts and second letters of runs and is at most twice the query's length |
| FuzzyMatch.Score | src/dashboard-v2-archive/voice-palette.ts:347-359 | the first loop finds the leftmost letters and adds their points |
| FuzzyMatch.PointsCount | src/dashboard-v2-archive/voice-palette.ts:347-353 | the points are two for each letter at a word start and one for each other second letter of a run |
| FuzzyMatch.Ranges | src/dashboard-v2-archive/voice-palette.ts:362-374 | the second loop covers exactly the leftmost embedding with sorted, non-adjacent ranges |
| FuzzyMatch.LeftmostIsUnique | src/dashboard-v2-archive/voice-palette.ts:362-374 | there is only one leftmost embedding |
| FuzzyMatch.HighlightErases | src/dashboard-v2-archive/voice-palette.ts:378-387 | erasing the marks from the highlight gives the escaped text back |
| FuzzyMatch.HighlightReads | src/dashboard-v2-archive/voice-palette.ts:378-387 | a highlight is read back as the text itself with exactly the given ranges marked |
| FuzzyMatch.HighlightMatch | src/dashboard-v2-archive/voice-palette.ts:378-387 | the loop computes the highlight of the specification |
| MarkdownBlocks.TurnKeepsGood | src/dashboard-v2-archive/utils.ts:166-255 | every turn keeps list indents strictly increasing, paragraphs apart from lists and tables, lists apart from tables, and the output nested |
| MarkdownBlocks.TurnEffect | src/dashboard-v2-archive/utils.ts:166-255 | what each kind of line adds to the output, which lists stay open and where the loop goes on |
| MarkdownBlocks.OutputNests | src/dashboard-v2-archive/utils.ts:144-260 | the whole output is well nested, with items only in lists and rows only in tables |
| MarkdownBlocks.OutputShowsEveryLine | src/dashboard-v2-archive/utils.ts:144-260 | every line that is not blank, a rule or a separator is shown exactly once, in order |
| MarkdownBlocks.RenderBlocks | src/dashboard-v2-archive/utils.ts:144-260 | the loop keeps both |
| DocsRender.TerminatesIff | src/docs/render.ts:62-159 | the loop ends exactly when no line outside a code block is stuck |
| DocsRender.StuckIff | src/docs/render.ts:81-153 | a line is stuck exactly when it starts with a hash and is no heading, or looks like an ordered item without a text |
| DocsRender.WellFormedHeadingsDoNotSuffice | src/docs/render.ts:125-149 | a line without any hash that hangs the loop |
| DocsRender.BlockStarts | src/docs/render.ts:66-79 | blocks start outside code blocks, and only a stuck line makes a block take nothing |
| DocsRender.KindIsFirst | src/docs/render.ts:66-149 | the loop takes the first branch whose pattern fits the line |
| DocsRender.TurnEffect | src/docs/render.ts:62-159 | an item joins an open list of its kind or opens one, anything else closes the list, and a block runs exactly as far as its kind does |
| DocsRender.Render | src/docs/render.ts:47-159 | without stuck lines the lists of the output balance, each item in a list of its kind |

## Left out

- DeliveryQueue.RetryComesAfterBackoff: from the third failure on it assumes that no reset hastens the row, because such a reset breaks the bound.
- SketchPlaceholders.RenderedInPlace: that the dashboard's markdown step keeps the sentinels is a condition on the callback; it is proved for HTML escaping only.
- EngineYamlWhole.BadgeSurvivesIff: about the badge's own line; the whole text is only proved to round trip when every such condition holds.
- FrozenPanes.FrozenAfterExit: that a third refusal is followed by a heal depends on the polls that come after it, so only one direction is stated over runs.
- ReplicaRuns.RunStaysGapFree: assumes an unfiltered live stream; a non-empty selection subscribes to part of it only.
- PersonaSync.SyncIsFixpointIff: takes scalar frontmatter values to be texts, as the flat parser yields them; anything else would throw when bound.
- EngineYamlWhole.RoundTrip: object property order is not modelled, absent and empty lists and texts are taken as the same, an inline hook is a text that is no JSON array, and `key` and `keystroke` as the same field.
- FuzzyMatch.Match: the two texts are already in lower case; lower-casing is taken to keep their length.
- DocsRender.Render: paragraphs, tables, rules and code blocks are one token each; inline formatting and table markup are not modelled.
- Composer.PrefixRoundTrip: agents are distinct, known and shaped like tokens, and the message does not start with a token the parser would take.
- Indicators, system messages, idle suspension, queued reload, auto-recovery and logging of the health monitor; the reload is the await after which a full poll finishes.
- The message caps and cursors of single-agent history, the `afterId` direction and `hasNewer` of the feed query, and the dashboard's own joining of older pages.
- Several tabs at once beyond what a leading watermark does to one merge; the cache write inside an init is a step of its own that may follow at once.
- `restoreSelectionOnInit`, the team index and the listeners of the event bus.
- Printing of captures inside custom buttons and of unknown step kinds, which the source prints as JSON that its parser does not read back; a top-level key that itself starts with `__custom__`.
- The regex engine: the patterns of the scanners are written out by hand; those of the archived block pass are answers about a line; the parts before and after its block pass.
- `setFrontmatterProxy`, `resolveEffectiveConfig`, template interpolation, routing, reconnect delay and focus mode: easy members.
- HTTP, WebSocket and tmux transport, timers, SQL text and migrations, DOM rendering, voice and audio.
