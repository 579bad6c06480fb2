# SyMon, modelled and proved

SyMon watches hosts, endpoints and Kubernetes clusters. Its collector classifies samples by rules,
opens and resolves alerts, queues notifications and delivers them; the dashboard asks hosts to run
tasks, which agents pick up and report on. This project models those protocols in Dafny and proves
what they promise over whole runs, together with the algorithms around them: task output as text,
restart counts, chart resolution, the login limiter, the metrics text and chart alignment.

Check it with `dafny verify dfyconfig.toml`.

## How it is built

- A protocol is a value holding its tables and memory, and a step function per operation. A step is
  one SQL statement or transaction, one evaluator check, one delivery try, or one action of a
  dashboard or agent. Main results speak about every sequence of steps from empty tables.
- What the program does by changing things is a class whose methods are proved to make exactly that
  step (`Evaluation.Evaluator`, `TaskRuns.TaskStore`, `TaskProtocol.TaskWaiters`,
  `TaskOutput.Collector`, `TaskReports.TaskRunner`, `DeliveryLoop.Deliverer`,
  `KubeRestarts.ClusterStore`, `LoginLimiter.LoginFailures`, `MetricsWriter.Writer`), so what is
  proved of runs of steps is proved of the methods.
- Failures, clocks, the network and other users are parameters or steps of their own: a store call
  that fails is a `Fault`, a try of a delivery has a `Result`, a report can be lost on its way out or
  on its way back.
- Times are integers in nanoseconds unless a type says otherwise, and values are `real`.

| files | about |
|---|---|
| Alerting, AlertLevels, AlertStatus, AlertHistory, AlertRecords, AlertNotices, AlertKeys, Evaluation | the evaluator |
| RuleStore, AlertRules, AlertCover | rule edits and what they do to alerts |
| Kube, KubeTargets, ClusterRounds, KubeRestarts, ClusterOwners | Kubernetes rules and restart counts |
| NoticeQueue, ChannelChoice, Notifications, Delivery, BoundedWaiting, DeliveryLoop, NoticeDelivery | queueing and delivering notifications |
| TaskRuns, TaskSweeps, TaskProtocol, TaskClaims, Utf8, Utf8Codes, TaskOutput, TaskChunks, TaskReports, TaskStored, TaskEnds | task runs, their wake-ups and their output |
| ChartResolution, ChartSeries, ChartAlign | charts |
| LoginLimiter, MetricsText, MetricsWriter, MetricsPage | the login limiter and the Prometheus text |

## Where the program does less than it says

Each of these has an input that shows it and the exact condition under which the promise holds.

- A certificate rule's comment says it alerts on the first check below a level. The code alerts on a
  check below a level exactly when none is open and an earlier one has been below it
  (`AlertLevels.CertificateAlertsOnSecondCheck`, `AlertHistory.NoIntervalNeedsTwoSamples`).
- A sample for which the open alert could not be read is skipped: its time counts and its status does
  not, so an alert can open across a normal sample (`AlertHistory.FailedReadHidesSample`). That sample
  is all a failed read costs: everything else is a function of the samples that were read
  (`AlertHistory.EvaluatorFollowsHistory`).
- Rules are read once a round, so a rule deleted or disabled in between can still open an alert that
  no rule covers (`AlertRules.DeletedRuleOpensUncoveredAlert`). `AlertRules.CheckKeepsCoverIff` says
  exactly when a check does not.
- An edit that takes a rule off the key of its open alert leaves the alert under a rule that never
  looks at it again: another metric, another URL, disk or service, or a host taken out of the list
  (`AlertCover.EditStrandsAlert`, `AlertCover.EditsThatStrand`). `AlertCover.StepKeepsWatchedIff`
  gives the exact edits and checks that leave every open alert watched.
- A write to an alert that the store made while its answer was lost tells nobody, so an alert can be
  open whose first notice is a change (`AlertNotices.LostAnswerHidesOpening`). The stories of all other
  alerts stay well told, and even then an opening only comes first and a resolution only last
  (`AlertNotices.EveryStoryIsWellTold`).
- A claim marks a going run lost because an agent asks while it runs nothing. A `NextTask` call that
  outlives its agent breaks that (`TaskClaims.StaleCallLosesRun` is such a run from empty tables). A
  claim loses a run exactly when the table has it as going (`TaskClaims.ClaimLosesIff`), which it also
  is after end reports that all failed. None is lost over any run in which agents ask one call at a
  time and only while the table has no going run of their host (`TaskClaims.FreeHostsLoseNothing`).
- A report the store took but whose answer was lost is sent again, and its text is stored twice
  (`TaskReports.LostAnswerDoubles`). `TaskReports.DoubledIffUnheard` says from the events alone when
  that happens, and `TaskReports.PrintedIsStored` that the output is stored whole exactly when not.
- Bytes that are no UTF-8 can read differently depending on when they are taken.
  `TaskChunks.CutsDoNotMatterIff` says for all bytes exactly when they cannot: when no take falls
  inside a run of bytes that are no character (`TaskChunks.StrayBytesDependOnTakes` is the shortest
  case).
- Keys are joined with bars. A key is written like no other if and only if its four names hold no
  bar (`AlertKeys.WrittenAloneIff`). The model's maps use the names themselves, which is the same as
  long as hosts, rules and metrics have none, whatever the targets are (`AlertKeys.AlertKeysAreExact`,
  `AlertKeys.SweepIsExact`).
- A cluster state stamped with time zero hides the restarts after it (`KubeRestarts.TimeZeroHidesRestarts`).
  For a container in every accepted state `KubeRestarts.RestartsAreConserved` says that nothing else
  does. A pod that is missing from one state and back in the next loses what rose meanwhile, as
  `KubeRestarts.FirstSeenIsStoredIff` says exactly.
- A chart is promised at most the points asked for and can have one more.
  `ChartResolution.PromisedPointsIff` says exactly when it does not, and
  `ChartResolution.UnalignedRangeHasExtraPoint` is an example.
- The limit of ten wrong passwords is per fixed window. Any span as long as a window can hold
  nineteen and no more (`LoginLimiter.SpanStaysUnderTwice`, `LoginLimiter.SpanCanHoldThatMany`).

## Model

| member | source | states |
|---|---|---|
| AlertLevels.LevelsAre | collector/alerts.go:182-236 | A value is critical exactly when it is past the critical threshold by the rule's operator, or a service is in the state its rule names, and warns exactly when it is past the warning threshold only. |
| AlertLevels.FurtherIsNoLessSevere | collector/alerts.go:182-236 | Going further in the direction an ordering operator alerts on never lowers the severity, for any two thresholds. |
| AlertLevels.CanWarnIff | collector/alerts.go:182-236 | Some value makes the rule warn exactly when the warning threshold is met before the critical one. |
| AlertLevels.CertificateAlertsOnSecondCheck | collector/evaluator.go:267-282 | In every reached state, a check of a certificate below a level opens an alert exactly when none is open and a breach is pending, a pending breach goes back to an earlier check below a level, and otherwise the check is only remembered and sends nothing. |
| AlertStatus.EndpointStatusIs | collector/evaluator.go:164-170 | For every code, an endpoint rule is critical exactly when the answer is not the code it names, or 200 when it names none, and normal otherwise. |
| AlertStatus.SilenceStatusIs | collector/evaluator.go:171-176 | A host is critical exactly when its silence in seconds is longer than the rule's interval. |
| AlertStatus.TroubleStatusIs | collector/evaluator.go:177-184 | A count of nodes not ready, missing replicas or pending pods is critical exactly when it is at least one. |
| AlertStatus.LevelStatusIs | collector/evaluator.go:185 | Everything else, restarts and certificates too, goes by the rule's levels. |
| AlertStatus.CertificateStatusIs | collector/evaluator.go:267-282 | Only endpoint rules with some level watch a certificate, under their own name and URL and with no interval, critical below the critical days and else a warning below the warning days. |
| AlertStatus.TargetIs | collector/evaluator.go:70-82 | Disk rules watch their disk, service rules their service, endpoint and certificate rules their URL, and others no target. |
| AlertStatus.GoodEndpointIsQuiet | collector/evaluator.go:107-247 | Over every run of checks with any store failures, an endpoint that always answers the code it should never has an open alert and nobody is told anything. |
| AlertStatus.BreachAlerts | collector/evaluator.go:107-247 | Over every run of checks that succeed, a key found breached from one check that counts to another at least the interval later has an open alert of the last one's severity, whatever came before. |
| AlertStatus.BadEndpointAlerts | collector/evaluator.go:107-247 | So an endpoint that answers any other codes for the interval in seconds has an open critical alert. |
| Alerting.OpenAlert | internal/store/alerts.go:87-102 | Finds an open alert of the key, or none when the key has none. |
| AlertHistory.EvaluatorFollowsHistory | collector/evaluator.go:107-247 | For every history of checks of any keys, repeated and late samples and store calls that fail or lose their answer included, a key's open alert, the change that waits and all it was told are functions of its samples that were read, and its last check is that of all its samples. |
| AlertHistory.OpensAndResolvesExactlyWhen | collector/evaluator.go:107-247 | A new sample opens an alert exactly when none is open, its store calls are done and the samples read up to it were all breached for the interval, and resolves it exactly when one is open, its calls are done and they were all normal for the interval. |
| AlertHistory.FailedReadHidesSample | collector/evaluator.go:112-118 | Breached, normal but not read, and breached again an interval after the first opens an alert. |
| AlertHistory.AlertsAreEarned | collector/evaluator.go:107-247 | Over every run with restarts, store failures, rule edits and vanished targets, a check tells at most one notice, and an open or resolve is preceded by a full interval in which every sample that was read is breached, or normal. |
| AlertHistory.RunRemembers | collector/evaluator.go:58-68 | Over every such run, a pending change began at an earlier sample that was read, and every sample read since is on its side. |
| AlertHistory.RecheckAfterRestartIsSilent | collector/evaluator.go:58-68 | Checking the last processed sample again right after a restart sends nothing, wherever restarts happened before. |
| AlertHistory.SeverityIsNewest | collector/evaluator.go:206-216 | An open alert has the severity of the newest sample when that one was breached. |
| AlertHistory.CheckFrame | collector/evaluator.go:101-123 | A check changes nothing about any other key: alert, pending change, last sample or notices. |
| AlertHistory.CheckEffect | collector/evaluator.go:188-247 | What one newer sample that is read does to the key's severity, memory and messages, in terms of the severity before, whether its side was due and whether it could be written. |
| AlertHistory.NoIntervalNeedsTwoSamples | collector/evaluator.go:223-230 | With no trigger interval, a side has lasted exactly when the last two samples are on it. |
| AlertRecords.CheckTellsWhatItWrote | collector/evaluator.go:188-247 | A check whose answers are heard either changes no alert and tells nothing, or writes one row and tells exactly that: its key, value, severity, time and whether it is resolved; the start of an alert that was open stays. |
| AlertRecords.TableReadsAsTold | collector/evaluator.go:188-247 | Over every run in which no answer is lost and alerts are not edited on the dashboard, each alert reads as the last notice about it said. |
| AlertRecords.SweepTellsGone | collector/kube.go:160-170 | A sweep tells about each key with a gone alert that it is resolved, once, and nothing about any other key. |
| AlertRules.OpenAlertsStayCovered | internal/store/rules.go:89-181 | Over every sequence of rule creates, updates, renames, disables, deletes, imports, restarts and checks of enabled rules, each open alert belongs to an enabled rule and no key has two. |
| AlertRules.CheckKeepsUnique | collector/evaluator.go:115-122 | A check keeps at most one open alert per key, for any rule and any store failure. |
| AlertRules.CheckKeepsCoverIff | collector/evaluator.go:232-240 | A check by a rule that may be gone keeps every open alert covered exactly when the rule is enabled or the check opens nothing. |
| AlertRules.CheckExtends | collector/evaluator.go:107-123 | A check adds at most the key's own open alert, and opens one exactly under the opening condition. |
| AlertRules.RenameMeetsNoOpenAlert | internal/store/rules.go:107-153 | A rule's new name has no open alerts yet, because only rules have them. |
| AlertRules.RenameKeepsUnique | internal/store/rules.go:139-146 | Renaming keeps one open alert per key when the new name has no open alert. |
| AlertRules.UpdateRuleKeeps | internal/store/rules.go:107-153 | Updating, renaming or disabling a rule keeps both invariants and the rule names distinct. |
| AlertRules.DeleteRuleKeeps | internal/store/rules.go:157-181 | Deleting a rule resolves its open alerts and keeps both invariants. |
| AlertRules.ImportKeeps | internal/store/rules.go:259-288 | Importing any rules, repeated names included, keeps both invariants. |
| AlertRules.DeletedRuleOpensUncoveredAlert | internal/store/rules.go:157-181 | A check by a rule deleted since it was read opens an alert that no rule covers. |
| RuleStore.CreatedReadsBack | internal/store/rules.go:88-105 | A created rule is read back whole under its new id, and every other rule is as it was. |
| RuleStore.UpdatedReadsBack | internal/store/rules.go:107-153 | After an update the rule is read back whole, no rule comes or goes or differs otherwise, the rule's open alerts have its new name and are resolved when it is off, and every other alert is as it was. |
| RuleStore.DeletedIsGone | internal/store/rules.go:157-181 | A delete removes one rule and resolves exactly its open alerts. |
| RuleStore.ImportReadsBack | internal/store/rules.go:259-288 | After any import nothing is gone or switched, each name of the file has its last rule of that name, other names have what they had, and what is new has a new id and is enabled. |
| RuleStore.UpdateIsKept | internal/store/rules.go:107-153 | Over every run, a rule reads as its last update wrote it until it is updated, deleted or imported over. |
| RuleStore.CreationIsKept | internal/store/rules.go:88-105 | The same for a rule that was created. |
| AlertCover.StepKeepsWatchedIff | internal/store/rules.go:107-181 | A check or edit leaves every open alert to an enabled rule that looks at its host, metric and target exactly when it opens nothing unwatched, or the rule it leaves under a name is on the keys of that name's open alerts. |
| AlertCover.OpenAlertsStayWatched | internal/store/rules.go:89-181 | Over every run of such steps each open alert has an enabled rule of its name that looks at its key. |
| AlertCover.RoundLooksAt | collector/alerts.go:62-93 | A round looks up exactly the keys a rule is on: its target on its hosts, all registered ones or those named, and its certificate. |
| AlertCover.CheckKeepsWatchedIff | collector/evaluator.go:232-240 | The check's part: it keeps that exactly when its key is watched or it opens nothing. |
| AlertCover.UpdateKeepsWatchedIff | internal/store/rules.go:107-153 | An update keeps that exactly when it disables the rule or the new rule is on the keys of the old one's open alerts. |
| AlertCover.ImportKeepsWatchedIff | internal/store/rules.go:259-288 | An import keeps that exactly when the last rule it has of each name is on the keys of that name's open alerts. |
| AlertCover.EditStrandsAlert | internal/store/rules.go:107-153 | Any edit that keeps the name and takes the rule off its open alert's key leaves the alert covered by name and watched by nobody. |
| AlertCover.EditsThatStrand | collector/evaluator.go:70-82 | Another metric, endpoint, disk or service, and a host taken out of the list, are such edits. |
| AlertNotices.EveryStoryIsWellTold | collector/evaluator.go:188-247 | Over every run, each alert's notices are opened, then changes each to another severity, then at most one resolution, and their state agrees with the alert's, unless the answer to a write to that alert was lost; even then an opening only comes first and a resolution only last. |
| AlertNotices.LostAnswerHidesOpening | collector/evaluator.go:232-243 | With the answer to its creation lost, an alert is open that nobody was told about, and its first notice is a change. |
| NoticeQueue.PickedChannels | collector/notify.go:79-104 | A channel is picked exactly when it is on and, for a resolution, was told about the alert, or else the rule wants it and it does not skip that severity. Whom a rule wants is in the rows of `ChannelChoice`. |
| NoticeQueue.PickChannels | collector/notify.go:79-104 | The loop over the channels picks those, in their order. |
| ChannelChoice.NoChoiceReachesDefaults | collector/notify.go:106-120 | A rule that names and ticks nothing reaches exactly the enabled default channels, without those that skip warnings for what is not critical. |
| ChannelChoice.TickReachesItsKind | collector/notify.go:112-117 | One tick alone reaches exactly the enabled channels of its kind, with the same exception. |
| ChannelChoice.NamesReachTheNamed | collector/notify.go:109-111 | Names alone reach exactly the enabled channels of those names, of any kind, with the same exception. |
| ChannelChoice.TickAddsItsKind | collector/notify.go:106-120 | One more tick on a rule that chooses something adds exactly the channels of that kind. |
| ChannelChoice.NameAddsTheNamed | collector/notify.go:106-120 | One more name on a rule that chooses something adds exactly the channels of that name. |
| ChannelChoice.ResolutionReachesTheTold | collector/notify.go:89-94 | A resolution reaches exactly the enabled channels that were told, whatever the rule chooses now. |
| ChannelChoice.PickedInOrder | collector/notify.go:83-104 | The picked channels come in the order of the channel list. |
| ChannelChoice.NoticeIsQueuedOnce | collector/notify.go:53-77 | An opening or change is queued once for each channel picked, with its kind and severity, and for no other. |
| NoticeQueue.ResolutionGoesToTheTold | collector/notify.go:53-77 | A resolution is queued once for exactly the enabled channels that have an earlier message about the alert. |
| NoticeQueue.QueueIsCoherent | internal/store/notifications.go:165-187 | When a resolution comes last in an alert's notices, so it does in what each channel gets of them, after something else, with channels changing and queueing failing in between. |
| NoticeQueue.NoStrayResolution | collector/notify.go:53-120 | From evaluator to queue: no channel gets a resolution of an alert it was not told about, and nothing after one. |
| NoticeDelivery.TableIsQueued | internal/store/notifications.go:165-239 | With queueing, channel deletes and deliveries in any order, the rows that are there say what the queueing alone would have left, and the queue's invariants hold. |
| NoticeDelivery.ResolutionComesLast | collector/notify.go:149-178 | From evaluator to delivery: when a try is about to be made nothing earlier for its alert and channel waits, and when it is of a resolution an earlier opening or change was sent or given up on. |
| Evaluation.AlertStore.CreateAlert | internal/store/alerts.go:104-121 | Adds an open alert under a new id and changes no other. |
| Evaluation.AlertStore.UpdateAlert | internal/store/alerts.go:123-129 | Changes one alert's severity, value and time. |
| Evaluation.AlertStore.ResolveAlert | internal/store/alerts.go:131-135 | Resolves one alert. |
| Evaluation.AlertStore.CreateRule | internal/store/rules.go:88-105 | Stores the rule given under a new id unless its name is taken, says which, and changes no other rule. |
| Evaluation.AlertStore.UpdateRule | internal/store/rules.go:107-153 | Stores exactly the rule given under its id, carries its open alerts and its endpoint checks to a new name, resolves the alerts when it is disabled, changes nothing else, and refuses a missing rule or a taken name with no change. |
| Evaluation.AlertStore.DeleteRule | internal/store/rules.go:157-181 | Removes that rule and no other and resolves its open alerts, or says that there is none and changes nothing. |
| Evaluation.AlertStore.ImportRules | internal/store/rules.go:259-288 | Adds or replaces each rule by name so that the file reads back from the table, and the counts of both add up to the rules given. |
| Evaluation.Evaluator.Check | collector/evaluator.go:107-123 | The method makes exactly the check step on tables, memory and notices, with a read or a write failing. |
| Evaluation.Evaluator.UpdateOpen | collector/evaluator.go:188-216 | The same for a key with an open alert. |
| Evaluation.Evaluator.OpenIfBreached | collector/evaluator.go:218-247 | The same for a key without one. |
| Evaluation.Evaluator.ResolveGone | collector/kube.go:151-189 | Resolves the rule's open alerts on targets that are gone, newest first, tells each, and forgets those targets. When listing or a resolve fails, exactly those before it are resolved and told and nothing is forgotten; one whose answer is lost is resolved and not told. |
| Evaluation.OpenAlertsAreListed | internal/store/alerts.go:147-187 | The list of a sweep has each open alert of the rule once, newest first. |
| Evaluation.Evaluator.CheckTargets | collector/kube.go:51-57 | Checks the targets in order up to the first check that fails, and touches nothing of other rules. |
| Evaluation.Evaluator.EvaluateCluster | collector/kube.go:31-59 | A round over a state of at most ninety seconds is a run of checks of the targets and a sweep, each up to where it fails; after a successful one the rule's open alerts and memory are on present targets only; other rules' are untouched always; an older, missing or unreadable state changes nothing. |
| Evaluation.GoneRoundLeaves | collector/kube.go:151-189 | After the sweep only present targets have open alerts or memory of the rule, and nothing of other rules changed. |
| Evaluation.GoneListResolves | collector/kube.go:160-170 | Going through a list resolves exactly its open alerts of the rule on absent targets and leaves all others as they were. |
| Evaluation.GoneRoundIsRun | collector/kube.go:151-189 | The sweep, whole or broken off, is a sequence of single steps, so the results about runs cover it. |
| ClusterRounds.StaleStays | internal/store/kube.go:29-33 | A state is too old exactly after ninety seconds, and stays so. |
| ClusterRounds.RoundNotices | collector/kube.go:31-59 | After a round that succeeds on a state newer than what was checked, a target has an alert open or about to open, with nothing about to resolve it, exactly when its value is a problem. |
| ClusterRounds.NodesAreNoticed | collector/kube.go:65-74 | So a node is noticed exactly when it is not ready. |
| ClusterRounds.WorkloadsAreNoticed | collector/kube.go:104-109 | And a workload exactly when it has fewer replicas available than it should. |
| ClusterRounds.PendingIsNoticed | collector/kube.go:110-119 | And an owner of pods exactly when one of its pods in the namespace is pending. |
| ClusterRounds.SweepKeepsPresent | collector/kube.go:151-189 | The sweep keeps what is remembered and noticed of targets that are there. |
| AlertKeys.AlertKeysAreExact | collector/evaluator.go:101-103 | Without bars in host, rule and metric names, written keys are equal exactly when their parts are, for any targets. |
| AlertKeys.SweepIsExact | collector/kube.go:172-182 | Without bars in names, the prefix of a rule's sweep finds exactly the keys of the rule on its metric, and what follows is the target. |
| AlertKeys.WrittenAloneIff | collector/evaluator.go:101-103 | A key is written like no other key if and only if its host, rule, metric and target hold no bar. |
| AlertKeys.KeyIsWritten | collector/evaluator.go:101-103 | A key is host, rule, metric and target with bars between them. |
| KubeTargets.CollectKeys | collector/kube.go:76-102 | The loops collect each key once, in order, with all pods of the key. |
| KubeTargets.PendingRuleTargets | collector/kube.go:111-120 | The loop gives one target per key with the number of its pending pods. |
| KubeTargets.CountPending | collector/kube.go:113-118 | The inner loop counts the pending pods. |
| KubeTargets.KeyedIffInNamespace | collector/kube.go:76-102 | Without slashes in namespaces, a pod's key is among the rule's exactly when the pod is in its namespace. |
| KubeTargets.KeysAre | collector/kube.go:76-97 | The keys are exactly those of workloads and pods of the namespace, and no namespace means all. |
| KubeTargets.OwnerHasKey | internal/kube/types.go:58-89 | A pod and a workload have one key exactly when their namespaces agree and the workload is the pod's owner. |
| KubeTargets.PodsOfAre | collector/kube.go:98-102 | A key's pods are all pods of its namespace and owner, each as often as reported. |
| KubeTargets.NodeTargetsAre | collector/kube.go:65-74 | A node rule has one target per node in order, of value one when it is not ready and zero otherwise. |
| KubeTargets.WorkloadTargetsAre | collector/kube.go:104-109 | A workload rule has exactly the targets of its namespace's workloads, each with the replicas it lacks. |
| KubeTargets.RestartRuleChecks | collector/kube.go:120-123 | A restart rule has one target for each key, with the restarts counted for that key. |
| KubeTargets.PendingPodsCountOnce | collector/kube.go:63-126 | A pending rule's targets are distinct and their values add up to exactly the pending pods of its namespace. |
| KubeTargets.NodeTroubleIffNotReady | collector/kube.go:65-74 | A node rule is critical on a name exactly when a node of that name is not ready. |
| KubeTargets.WorkloadTroubleIffShort | collector/kube.go:105-110 | A workload rule is critical on a key exactly when such a workload in its namespace lacks replicas. |
| KubeTargets.PendingTroubleIffPending | collector/kube.go:110-119 | A pending rule is critical on a key exactly when a pod of that key in its namespace is pending. |
| KubeRestarts.Restarts | internal/kube/restarts.go:19-57 | The loops over maps of counters give the restarts between two states. |
| KubeRestarts.RiseIsStored | internal/kube/restarts.go:19-57 | For a container in both states, what is listed is the rise of its counter, counted from zero after a drop. |
| KubeRestarts.RiseIsStoredIff | internal/kube/restarts.go:19-57 | That holds exactly when the earlier state has a time other than zero or there is no rise. |
| KubeRestarts.FirstSeenIsStoredIff | internal/kube/restarts.go:34-45 | Of a pod the earlier state does not have, all of a container's counter is stored when the pod was made since, and nothing otherwise. |
| KubeRestarts.ClusterStore.SaveClusterReport | internal/store/kube.go:45-109 | Refuses exactly the hosts that do not report the cluster, and otherwise keeps the report as the step says: late ones and read errors change no counts. |
| KubeRestarts.AcceptedTimesIncrease | internal/store/kube.go:45-109 | Accepted states have strictly increasing times over every sequence of reports and host removals. |
| KubeRestarts.RestartsStored | internal/store/kube.go:45-127 | For any reports, the restarts stored for a container in every accepted state total the rises of its counter less those right after a state of time zero. |
| KubeRestarts.RestartsAreConserved | internal/store/kube.go:45-127 | They total exactly the rises if and only if the counter does not rise right after a state of time zero, and never more. |
| KubeRestarts.RisesAddUp | internal/kube/restarts.go:19-57 | The rises total last minus first exactly when the counter never drops, and more otherwise. |
| KubeRestarts.TimeZeroHidesRestarts | internal/kube/restarts.go:20-23 | A run of two reports in which a container restarts once and nothing is stored. |
| ClusterOwners.OthersAreRefused | internal/store/kube.go:92-94 | The host that reports a cluster goes on doing so until it is removed, and everything is as if no other host had reported. |
| ClusterOwners.FreedClusterIsTaken | internal/store/kube.go:92-109 | A removed host leaves the state, and the next host takes the cluster over exactly with a newer state or an error; an error leaves the state. |
| ClusterOwners.RowsAreReported | internal/kube/restarts.go:19-57 | Over every run, each restart listed counts at least one and is of a container that was reported, under its pod's own names. |
| Notifications.RetryAfter | collector/notify.go:124-129 | There is a next wait exactly after failures one to five. |
| Notifications.WaitsGrow | collector/notify.go:28-30 | The five waits are half a minute, two, ten and thirty minutes and an hour, and grow. |
| Notifications.DueIff | internal/store/notifications.go:220-222 | A message is due exactly when it is pending, its time has come and nothing older of its alert and channel is pending. |
| Notifications.BatchHoldsDue | internal/store/notifications.go:223-223 | A batch holds at most twenty messages, and everything due when it holds fewer. |
| Notifications.QueuedIsTaken | internal/store/notifications.go:165-187 | A new message with nothing pending before it for its alert and channel is in the next batch unless that is full. |
| Notifications.DuePicks | internal/store/notifications.go:210-239 | The batch is due rows in order of id, and a due row left out waits behind a full batch of older ones. |
| Delivery.DeliveryIsInOrder | collector/notify.go:149-178 | In every run, tries for an alert and channel never go back to an earlier message, also when a mark fails after a send. |
| Delivery.BatchHoldsOnePerPair | internal/store/notifications.go:210-239 | In every run, a batch holds at most one message per alert and channel. |
| Delivery.DeliveryIsFinite | collector/notify.go:28-30 | In every run, a row counts its recorded tries, has at most six, and at the sixth is sent or failed. |
| Delivery.RetriesKeepTheirWaits | collector/notify.go:163-169 | In every run, the try after the kth recorded failure is at least the kth wait later. |
| Delivery.StepKeeps | internal/store/notifications.go:241-262 | Every queueing, delete, read and mark keeps the queue's invariants. |
| BoundedWaiting.NoneWaitsForever | collector/notify.go:149-178 | When marks succeed, a due message with L pending older ones is in a batch within (6 L) / 20 + 1 reads and tried by its end, whatever is queued, removed or fails. |
| DeliveryLoop.Deliverer.DeliverDue | collector/notify.go:151-178 | The loop sends the oldest due rows, leaves in the table what became of each and nothing else, and is a run of the queue's steps. |
| DeliveryLoop.Deliverer.Record | collector/notify.go:163-172 | Marks a row sent, to retry after its wait, or failed, as the outcome says. |
| DeliveryLoop.BatchIsSent | collector/notify.go:151-178 | Trying a batch entry by entry records each entry's outcome exactly once, reaches a state of the queue's runs and keeps its invariants. |
| DeliveryLoop.NotificationStore.QueueNotifications | internal/store/notifications.go:165-177 | Adds one pending row per channel in order, due at once, and keeps the others. |
| DeliveryLoop.NotificationStore.MarkSent | internal/store/notifications.go:241-246 | Marks a row sent and counts the try. A removed row stays removed. |
| DeliveryLoop.NotificationStore.MarkRetry | internal/store/notifications.go:249-254 | Counts the try and sets the time of the next. |
| DeliveryLoop.NotificationStore.MarkFailed | internal/store/notifications.go:257-262 | Marks a row failed and counts the try. |
| TaskRuns.TaskStore.RequestTaskRun | internal/store/tasks.go:98-113 | Queues a run with the timeout given exactly when the task is listed and the host has no queued or running one. |
| TaskRuns.TaskStore.ClaimTaskRun | internal/store/tasks.go:118-145 | Hands out the host's waiting run exactly when there is one of less than two minutes, which is only when nothing was going; a going run becomes lost. |
| TaskRuns.TaskStore.AppendTaskOutput | internal/store/tasks.go:149-163 | Adds output to the host's going run up to the limit, and refuses any other run. |
| TaskRuns.TaskStore.FinishTaskRun | internal/store/tasks.go:176-207 | Ends the host's going run with its code and time, as timed out, succeeded or failed, with the first 500 characters of its error without zeros, and refuses any other run. |
| TaskRuns.TaskStore.SweepTaskRuns | internal/store/tasks.go:275-291 | Changes exactly the runs queued for two minutes, which expire, and those going for more than a minute past their timeout, which are lost. |
| TaskRuns.TaskStore.PurgeTaskRuns | internal/store/tasks.go:294-301 | Removes exactly the ended runs asked for before a time. |
| TaskSweeps.SweepChanges | internal/store/tasks.go:275-291 | What a sweep makes of each row, and that no other changes. |
| TaskSweeps.ClaimChanges | internal/store/tasks.go:118-145 | What a claim makes of each row: the going run is lost, the young queued one starts, and any other row is as it was. |
| TaskSweeps.PurgeRemoves | internal/store/tasks.go:294-301 | A purge removes exactly the ended runs asked for before a time and leaves the others as they are. |
| TaskSweeps.QueuedRunWaits | internal/store/tasks.go:275-291 | Under every interleaving, a queued run is as it was or was handed out, for two minutes from its request on. |
| TaskSweeps.ClaimTakesQueued | internal/store/tasks.go:118-145 | A claim of its host within those two minutes hands it out. |
| TaskProtocol.TaskWaiters.Wait | internal/api/tasks.go:33-45 | Gives the host's open channel, the same to everyone who waits for it. |
| TaskProtocol.TaskWaiters.Wake | internal/api/tasks.go:47-54 | Closes the host's channel, and only that, and takes it out of the map. |
| TaskProtocol.NoLostWakeUp | internal/api/tasks.go:81-111 | Under every interleaving, while a call is blocked on an open channel, the requester of every run asked for since the call looked has not done its wake yet. |
| TaskProtocol.WakeUnblocks | internal/api/tasks.go:162-175 | That wake lets the blocked call go on. |
| TaskProtocol.OpenChannelsAreMapped | internal/api/tasks.go:33-54 | Under every interleaving, an open channel anyone holds is the one in the map. |
| TaskProtocol.RunsLiveOnce | internal/store/tasks.go:98-145 | Under every interleaving: one active run per host, each run handed out at most once and under two minutes after its request, at most one end report accepted. |
| TaskProtocol.ClaimHandsOutOne | internal/store/tasks.go:118-145 | A claim hands out exactly the host's waiting run, or none; one that finds a run going marks it lost and hands out none. |
| TaskProtocol.EndedRunsStay | internal/store/tasks.go:149-207 | No step changes an ended run, and only a purge removes it. |
| TaskClaims.StaleCallLosesRun | internal/api/tasks.go:81-111 | A run of ten steps from empty tables in which a call woken late loses the run another call handed out a moment before. |
| TaskClaims.ClaimLosesIff | internal/store/tasks.go:125-127 | A claim turns a run lost exactly when it is going for the claim's host. |
| TaskClaims.FreeHostsLoseNothing | internal/store/tasks.go:115-117 | Over every run in which agents ask one call at a time and only while the table has no going run of their host, no claim changes a going run. |
| Utf8.ValidTextIsTheBytes | agent/tasks.go:299-311 | The text of valid UTF-8 is its bytes without the zeros, with nothing replaced. |
| Utf8.PrefixSplits | agent/tasks.go:315-326 | Every prefix of valid UTF-8 is whole characters and at most a part of one. |
| Utf8Codes.CharacterIff | agent/tasks.go:299-311 | The bytes that count as a character are exactly the encodings of Unicode's scalar values. |
| Utf8Codes.FullRuneIff | agent/tasks.go:315-326 | Bytes are held back exactly when some more bytes would make them a character. |
| TaskOutput.WholeCharacters | agent/tasks.go:315-326 | The backward loop over at most four bytes computes the scan of the model. |
| TaskOutput.WholeIsLongest | agent/tasks.go:315-326 | On a prefix of valid text, the scan finds the longest prefix ending on a character's boundary. |
| TaskOutput.KeepsTheFirstBytes | agent/tasks.go:284-297 | For any writes and takes, what was taken and what is held are the first bytes printed up to the limit, and the dropped flag is set exactly when more was printed. |
| TaskOutput.ChunkIndependence | agent/tasks.go:284-326 | Valid output within the limit, cut into any writes with takes anywhere, is taken as its whole text without zeros and without replaced characters. |
| TaskChunks.CutsDoNotMatterIff | agent/tasks.go:284-326 | For any output at all, every way to write and take it gives the text of the bytes kept if and only if no take can fall inside a run of bytes that are no character. |
| TaskChunks.TakeIsBetween | agent/tasks.go:315-326 | On such output a take cuts between characters and runs, however much has arrived. |
| TaskChunks.ValidIsSteady | agent/tasks.go:315-326 | Valid UTF-8 is such output. |
| TaskChunks.StrayBytesDependOnTakes | agent/tasks.go:299-326 | Continuation bytes without a character to continue are such output exactly when there is one of them. |
| TaskOutput.Collector.Write | agent/tasks.go:284-297 | Keeps what fits the limit and notes that something was dropped. |
| TaskOutput.Collector.Take | agent/tasks.go:299-311 | Gives the whole characters held, or everything at the end, and keeps the rest. |
| TaskReports.StoredOutput | internal/store/tasks.go:149-163 | For any accepted reports, stored output is the first characters of all their text up to the limit, and truncated is set exactly when a report said so or the text is longer. |
| TaskReports.OutputArrivesWhole | agent/tasks.go:197-261 | With an accepted end report, the accepted text is all the agent took exactly when no report was taken unheard; it is then stored whole and truncated equals the agent's dropped flag. |
| TaskReports.PrintedIsStored | agent/tasks.go:197-242 | Output within the limit that cuts cannot change, valid text among it, printed in any pieces, is stored whole and not truncated exactly when no report was taken unheard. |
| TaskReports.DoubledIffUnheard | agent/tasks.go:202-215 | Text is stored twice exactly when a tick's answer is lost before the collector gave up while text waits or is being taken, told by the events alone. |
| TaskReports.LostAnswerDoubles | agent/tasks.go:202-215 | Any valid text printed and reported once with its answer lost is stored twice in a row. |
| TaskReports.EndIsStored | agent/tasks.go:216-235 | A run is stored as succeeded exactly when its process ended by itself with code zero, and as timed out exactly when it did not end well by its deadline; an error is sent exactly for a signal or a failed wait before it. |
| TaskStored.GoingRunHasReports | internal/store/tasks.go:149-163 | Under every interleaving, a run that is still going has exactly the reports its host made on it applied in their order, and is otherwise as it was. |
| TaskStored.EndedRunHasReports | internal/store/tasks.go:176-207 | When it ends, its output is the text of those reports and of the end report up to the limit, and truncated is set exactly when one said so or the text is longer. |
| TaskStored.FinishGives | internal/store/tasks.go:176-207 | An end report on a going run ends it and is on record once more, and any other changes nothing. |
| TaskStored.CallEnds | internal/api/tasks.go:81-111 | A call that ends is forgotten and nothing else changes. |
| TaskEnds.EndArrivesIff | agent/tasks.go:216-261 | An end is stored exactly when the collector has not given up on the run and one of the tries reaches it. |
| TaskEnds.ReportsHaveText | agent/tasks.go:207-208 | While a task runs, only reports with text are sent. |
| TaskEnds.ReportingStopsIff | agent/tasks.go:207-214 | The agent stops reporting exactly when a report with text is answered after the collector gave up. |
| TaskReports.TaskRunner.Tick | agent/tasks.go:202-215 | Takes what is ready, joins it to what is still unsent and reports it, keeping it when the report fails. |
| TaskReports.TaskRunner.Deliver | agent/tasks.go:207-215 | One try of a report: what it leaves unsent, and whether the agent goes on reporting. |
| TaskReports.TaskRunner.End | agent/tasks.go:216-261 | Sends the last text with the exit code, timeout and error of the process, trying again until it goes through or the tries are used up; what is accepted is exactly that. |
| ChartResolution.StepCoversRange | internal/store/series.go:156-174 | For every range, backwards ones too, and every number of points, to - from < step * maxPoints, and the step is whole grains of its source. |
| ChartResolution.StepIsLeast | internal/store/series.go:156-174 | No smaller multiple of the source's grain would cover the range. |
| ChartResolution.SourceIsKept | internal/store/series.go:154-167 | A metric with raw rows only is read raw. Otherwise raw and one-minute data are read only where kept back to the start, and a coarser source is read only for a reason. |
| ChartResolution.FurtherBackIsCoarser | internal/store/series.go:156-167 | An earlier start never gives finer data or a smaller step. |
| ChartResolution.AtMostOneExtraPoint | internal/store/series.go:103-104 | A series has at most one point more than was asked for, for any source and any origin of the buckets. |
| ChartResolution.PromisedPointsIff | internal/store/series.go:103-104 | With the source's rows where its table has them, every possible series keeps to the number asked for exactly when the range from its first row on and the part of that row's bucket before it fit that many buckets; a range whose first row starts a bucket always does. |
| ChartResolution.RowsAreAt | internal/store/series.go:156-174 | The first row of a range is at a whole microsecond, minute or hour by the source, and less than one of them later. |
| ChartResolution.RollupRowsStartLater | internal/store/series.go:156-174 | A range that starts half way into a minute and is read from minutes keeps to the two points asked for. |
| ChartResolution.UnalignedRangeHasExtraPoint | internal/store/series.go:103-104 | A range of two seconds with two points where one was asked for. |
| ChartSeries.CollectSeries | internal/store/series.go:133-152 | Comparing with the last series only, the loop gives one series per label with a value, each with exactly its label's points in order. |
| ChartAlign.Align | client/web/src/lib/align.ts:33-50 | The axis strictly increases, its whole seconds are the sorted union of the shown series' times, each row shows its series, and series past the eighth are only named. |
| ChartAlign.WithGaps | client/web/src/lib/align.ts:54-64 | The loop builds the axis with a half second in each outage. |
| ChartAlign.AxisKeepsTimes | client/web/src/lib/align.ts:54-64 | Taking the added times out gives the times back. |
| ChartAlign.AxisIsIncreasing | client/web/src/lib/align.ts:54-64 | Adding times keeps the axis strictly increasing. |
| ChartAlign.OutagesAreFew | client/web/src/lib/align.ts:54-64 | Fewer than half of the gaps are taken for outages. |
| ChartAlign.OutagesAreMarked | client/web/src/lib/align.ts:54-64 | The axis has a time inside a gap exactly when the gap is longer than three times the upper median of the gaps, and it is half a second past the middle second. |
| ChartAlign.FillRow | client/web/src/lib/align.ts:44-48 | Writing a series' points over a blank row leaves at each tick what the series has there. |
| ChartAlign.ValueIsLast | client/web/src/lib/align.ts:44-48 | A tick shows the last point of its time. |
| ChartAlign.SeriesReadsBack | client/web/src/lib/align.ts:44-48 | A shown series with distinct times is read back from its row exactly, in the order of time. |
| ChartAlign.NullExactlyAtAddedTimes | client/web/src/lib/align.ts:44-48 | A row is null exactly at the added times. |
| LoginLimiter.LimiterFollowsRecord | internal/api/login.go:45-98 | Over every sequence of logins, purges included, a name is blocked exactly when a record of its wrong passwords that drops nothing says so. |
| LoginLimiter.WindowHoldsLimit | internal/api/login.go:16-21 | Between successful logins a window holds at most ten counted failures of a name. |
| LoginLimiter.SpanStaysUnderTwice | internal/api/login.go:45-75 | Any half-open span as long as a window holds at most nineteen. |
| LoginLimiter.SpanCanHoldThatMany | internal/api/login.go:45-75 | A sequence of logins reaches nineteen in such a span. |
| LoginLimiter.TenLockOut | internal/api/login.go:45-75 | A name without counted failures that gets up to ten wrong passwords at one time is refused afterwards exactly when they were ten and fifteen minutes have not passed. |
| LoginLimiter.RightStartsOver | internal/api/login.go:83-98 | A successful login starts the count over, for its own name only. |
| LoginLimiter.WrongCountsOnce | internal/api/login.go:52-73 | A wrong password counts once, for its own name only, unless it is refused. |
| LoginLimiter.LoginFailures.Purge | internal/api/login.go:59-66 | Drops exactly the windows that have ended. |
| LoginLimiter.ManyArePurged | internal/api/login.go:59-66 | Past a thousand names, a wrong password leaves no window that has ended. |
| LoginLimiter.LoginFailures.Fail | internal/api/login.go:52-73 | Counts a failure in the name's window, or starts one when there is none or it has ended. |
| LoginLimiter.LoginFailures.CheckLogin | internal/api/login.go:83-98 | Refuses exactly blocked names, counts wrong passwords only, and clears a name only on success. |
| MetricsText.LabelsReadBack | client/internal/server/metrics.go:212-229 | Written labels read back as the same names and values, for every value. |
| MetricsText.SampleReadsBack | client/internal/server/metrics.go:223-239 | A written sample reads back as its metric, labels and value. |
| MetricsText.ValuesAreQuoted | client/internal/server/metrics.go:212-229 | A value is written in quotes, with a backslash before a quote or a backslash and a line break as a backslash and an n. |
| MetricsText.SampleIsOneLine | client/internal/server/metrics.go:212-239 | A sample's only line break is its end, whatever its label values hold. |
| MetricsText.RenderedAlikeIff | client/internal/server/metrics.go:223-233 | Two label lists are written alike exactly when they are equal. |
| MetricsText.EqualsSignConfuses | client/internal/server/metrics.go:223-229 | For any two labels there is one label with an equals sign in its name that is written like them. |
| MetricsWriter.WriteLabels | client/internal/server/metrics.go:223-229 | The loop writes the pairs with commas between them and leaves out a name without a value. |
| MetricsWriter.LeftOutIffSameLabels | client/internal/server/metrics.go:230-239 | A sample is left out exactly when its metric had the same labels before, and else comes last in its metric. |
| MetricsWriter.SamplesDiffer | client/internal/server/metrics.go:230-233 | No two written samples of a metric have the same labels. |
| MetricsWriter.EveryLabelSetIsWritten | client/internal/server/metrics.go:230-239 | Every label set a metric was given is written. |
| MetricsWriter.MetricsAreDistinct | client/internal/server/metrics.go:216-221 | Each metric given has one place in the order of first appearance. |
| MetricsWriter.Writer.Add | client/internal/server/metrics.go:214-240 | Keeps the families, their order, headers, samples and seen label sets what the calls so far give. |
| MetricsWriter.Writer.WriteTo | client/internal/server/metrics.go:242-252 | Writes each metric's block in one piece, in the order the metrics first came up. |
| MetricsPage.PageReadsBack | client/internal/server/metrics.go:183-252 | From the text of a page alone, line by line, the metrics are read back in their order, each with its kind, help and samples. |
| MetricsPage.FirstIsEarliest | client/internal/server/metrics.go:214-221 | A metric's kind and help are those of the earliest call for it. |

## Left out

- Sending itself (mail, Slack, PagerDuty, webhooks), endpoint checks, the Kubernetes API, gRPC and the database driver: only their outcomes appear, as parameters.
- Running a task's process, its signals and its timeout: what it prints is given.
- Wording of alerts and messages, links, logging and the reasons of Kubernetes alerts: no state depends on them.
- `PreviousRef` and `ref` of notifications, which a channel keeps for its own messages.
- Validation of rules, channels and cluster names before they are stored; the model takes any.
- The values behind samples: `latest`, the disk forecast, the certificate fetch.
- An evaluator check is atomic with regard to dashboard edits, because `UpdateAlert` and `ResolveAlert` do not ask whether the alert is still open. Edits happen between checks.
- The unique index on open alerts (`alerts_one_open`) is not used: one open alert per key is proved of the steps themselves. The one on active runs (`task_runs_one_active`) is the guard of a request.
- Removing hosts, resolved alerts and clusters, and what the schema deletes with them, apart from a cluster losing its host and notifications that disappear.
- `SetupRules`, which fills an empty rule table once.
- Cluster metrics rows and the reason stored with a restart.
- The database's and the collector's clocks are one clock that never goes back.
- DeliveryLoop.NotificationStore.QueueNotifications: its rows hold what delivery depends on; what they say is in `NoticeDelivery.Table`, and their wording is left out.
- Evaluation.Evaluator.EvaluateCluster: the list of keys and pods it builds is proved for pending rules as a loop (`KubeTargets.PendingRuleTargets`); node, workload and restart targets are functions.
- MetricsWriter.Writer.Add: takes a value as its text, without the formatting of numbers.
- MetricsWriter.LeftOutIffSameLabels: labels are compared as lists, like the code does, so the same labels in another order count as others.
- ChartResolution.PromisedPointsIff: takes the range as given to the database, which keeps microseconds; requests come in whole seconds. Buckets are counted from a whole hour, as TimescaleDB does.
- AlertCover.StepKeepsWatchedIff: a key that is looked at can still be without data, like a host that stopped reporting or a cluster nobody reads, and then nothing resolves its alert.
- ChartResolution.StepCoversRange: durations are unbounded; the saturation of ranges over 292 years is not modelled.
- ChartAlign.Align: times are whole seconds, as the program's own are; other numbers are not modelled.
- LoginLimiter.LimiterFollowsRecord: logins come one after the other; two at once could both pass the check before either is counted.
- AlertStatus.CertificateStatusIs: takes a rule's certificate levels as chosen, both zero when it has none; the default levels and the test for an HTTPS URL are not modelled.
- Sessions, password hashes, enrollment, updates, agents' own metrics, pages and forms of the dashboard.
