# A verified model of Glouton's state machines and data transformations

Glouton is a monitoring agent. Most of it is input and output, but a number of its parts are small
protocols or transformations with strong invariants, and these are modelled here in Dafny:

- **Collector**: inputs are added, gathered, removed and closed concurrently, and an input must never
  be stopped while it is gathered (`CollectorProtocol`). A three-level cache decides when a series
  gets a stale marker (`StaleMarkers`), keyed by label sets written as text (`LabelsText`).
- **Service discovery**: an update works on a copy without the lock while services may be removed
  (`DiscoveryUpdate`); a reconciliation keeps inputs and checks in line with the published services
  (`Registrations`); configuration may rename services (`DiscoveredServices`); listen addresses claimed
  twice are resolved (`ListenConflict`); a loop with timers drives it all (`DiscoveryLoop`).
- **Configuration**: recursive merge and pruning (`ConfigMerge`), priorities (`ConfigBuild`),
  un-flattening of dotted keys (`ConfigUnflatten`), migration of legacy log inputs
  (`LegacyLogInputs`).
- **Triggers**: requests, flags and a debouncer across two locks (`TriggerDebounce`).
- **Checks**: a bounded buffer in which a pattern is searched in a stream (`PatternWindow`).
- **Facts**: a double-checked cache (`FactsCache`), the stamp that says facts changed (`FactStamp`),
  cleaning of values (`FactsCleaning`), and a status that is printed, stored, parsed back and combined
  over many refreshes (`AutoUpgrade`).

`Common`, `Strings` and `Sorting` hold what several modules share.

Code that updates things step by step is modelled by classes and by methods with loops, each proved
against functions on values; what the code is for is then stated as lemmas about those functions, over
all inputs and over all runs of the state machines built from them. A loop over a Go map takes its keys
in an order left open, so that what is proved holds for every iteration order. `dafny verify
dfyconfig.toml` checks the whole project.

Some things one would expect of the code are not so. Each is kept as the code has it, with a lemma that
says exactly when it does hold:

- The pattern search misses a pattern if a read overflows a partly filled buffer (`AgreesIffAligned`).
- Merging configuration values is not associative in general (`AssociativeIff`,
  `AssociativityFails`), and un-flattening depends on the iteration order when one key is a dotted
  prefix of another (`OrderIndependentIffPrefixFree`).
- A user's own log receivers in dotted form are lost if `log.inputs` is not empty but none of its
  entries can be translated, and one that bears the name given to a translated entry is replaced
  (`MigrateLogInputs`, `MalformedEntryLosesReceivers`, `TranslatedEntryReplacesReceiver`).
- A discovered service whose own configuration, such as its container's labels, gives it another type
  or instance is renamed but keeps its old map key (`PublishedKeysMatchIff`). Its input is then
  recorded under the new name, and a registration is lost when it is set up again
  (`LosesNothingIff`, `PlacesRightIff`, `RenamedLosesFirst`).
- A service removed during an update and found running by it inherits the netstat information of its
  removed self (`TwoPhaseIsOnePhaseIff`, `RemovedSelfIsInherited`). Against its comment,
  `removedDuringUpdate` also stays set after an aborted update (`RecordedIffBegunLast`,
  `AbortKeepsRecord`).
- The grace delay of a failing input counts from the last completed gather, not from the last success,
  so that an input that keeps failing keeps its series for ever (`SkipsAsBySuccessIff`,
  `SecondFailureIsSkipped`, `FailingNeverMarks`).
- A run may start sooner after a request than the debouncer's delay, against its documentation
  (`WaitBounds`, `WaitCanBeShort`).
- An address listed twice by one service is in conflict with itself (`FixListenAddressConflict`,
  `SelfConflictDrops`).
- Label names that are empty or hold an equals sign break the round trip of label sets
  (`RoundTripIff`, `InvalidNamesCollide`).

## Model

| member | source | states |
|---|---|---|
| CollectorProtocol.FindFreeId | collector/collector.go:100-110 | the search ends at the least free id, which is at most one more than the number of inputs, so the error for a lack of ids cannot occur |
| CollectorProtocol.Collector.AddInput | collector/collector.go:87-131 | a failed Init adds nothing, a failed Start takes the three entries back out, otherwise the input is stored at the least free id with a wait group and a cache of its own |
| CollectorProtocol.Collector.RemoveInput | collector/collector.go:134-157 | the entries of the id are taken out under the lock, and then a stopping goroutine is started for a service input that was there |
| CollectorProtocol.StopInputs | collector/collector.go:178-181 | after the lock is released exactly the inputs taken out are asked to stop, one step each, whatever the iteration order |
| CollectorProtocol.Collector.CloseInputs | collector/collector.go:164-181 | inputs and wait groups are emptied under the lock, and then every input held before is asked to stop |
| CollectorProtocol.StartGathers | collector/collector.go:249-299 | for every iteration order, the wait group of every input in the collector is raised by exactly one together with its gathers about to start, and all other inputs stay as they are |
| CollectorProtocol.Collector.LaunchGathers | collector/collector.go:239-301 | the locked part of a run launches one gather per input in the collector, counted in its wait group, and changes nothing else |
| CollectorProtocol.Collector.FinishGather | collector/collector.go:293-298 | the end of a gather records its time, failed or not, and releases the wait group |
| CollectorProtocol.StepKeepsInv | collector/collector.go:87-304 | every step of every caller and goroutine keeps: wait groups match gathers in flight, entries have their own wait group and cache, and an accepted service input is in one place only |
| CollectorProtocol.ServiceIsInOnePlace | collector/collector.go:134-226 | in every run an accepted service input is in exactly one of: the collector, the hands of one caller that took it out, one goroutine waiting to stop it, one about to stop it, and the past, stopped once; nothing in the steps themselves keeps a second caller or goroutine out |
| CollectorProtocol.StopIsSafeAndLast | collector/collector.go:196-226 | in every run, Stop is called only when no gather of the input is launched, running or finishing, and afterwards no gather starts on it, nobody asks it to stop and Stop is not called again |
| CollectorProtocol.RefusedNeverRuns | collector/collector.go:93-127 | in every run, an input whose Init or Start failed is never gathered and never stopped |
| CollectorProtocol.NothingIsMixedUp | collector/collector.go:61-63 | in every reachable state inputs, wait groups and caches agree id by id, and only accepted inputs are in the collector |
| CollectorProtocol.AcceptedStaysUntilTakenOut | collector/collector.go:87-194 | in every run an accepted input is in the collector under the id it got until a removal of that id or a close takes it out |
| CollectorProtocol.StopCanCome | collector/collector.go:134-226 | from every reachable state, what is left to do for a service input that is out of the collector can go on to the call of Stop without help from others |
| CollectorProtocol.LaunchStartsOneGatherEach | collector/collector.go:259-261 | in every run a launch raises the wait group and the gathers about to start of each input in the collector by one, and touches no other input and no map |
| CollectorProtocol.TakingOutForgets | collector/collector.go:134-181 | in every run a removal forgets input, wait group, cache and time of its id and of no other, and Close takes out all inputs and wait groups but forgets neither caches nor times |
| CollectorProtocol.AddChanges | collector/collector.go:87-131 | in every run a new input gets the least free id and disturbs no other entry; a refused one leaves nothing behind |
| CollectorProtocol.EveryGoroutineIsAccountedFor | collector/collector.go:196-301 | in every run, each launch while an input was in the collector is a gather yet to begin, under way or ended, and each call of stopInputAsync a goroutine that waits, is about to call Stop, or has: the state is what the count of past events leaves |
| CollectorProtocol.TimeKnownIff | collector/collector.go:143-143 | a gather time is known for an id exactly when a gather of an input stored there finished after the last removal of the id, so a new input can inherit the time of an earlier one |
| CollectorProtocol.TimeIsOfLatestGather | collector/collector.go:293-298 | the time known for an id is the start of the gather that finished last under it |
| StaleMarkers.AddFields | collector/collector.go:391-412 | exactly the given fields get an entry under the tags, all others keep theirs |
| StaleMarkers.MarkTags | collector/collector.go:330-352 | one marker for each cached and unseen series of a measurement and field, none for others |
| StaleMarkers.MarkFields | collector/collector.go:329-353 | one marker for each cached and unseen series of a measurement, none for others |
| StaleMarkers.MarkAll | collector/collector.go:328-354 | every cached and unseen series gets exactly one marker with the cached callback and annotations, every other series none |
| StaleMarkers.CopyFields | collector/collector.go:370-376 | the fields of a measurement are overlaid with the latest ones |
| StaleMarkers.CopyAll | collector/collector.go:365-377 | the nested cache is overlaid with the latest values, series by series |
| StaleMarkers.FlatAt | collector/collector.go:57-58 | the three-level cache stands for a map over series |
| StaleMarkers.InactiveMarkerAccumulator.constructor | collector/collector.go:276-280 | a gather starts with nothing seen and the cache of its input |
| StaleMarkers.InactiveMarkerAccumulator.DoAdd | collector/collector.go:382-415 | as a map over series, the seen values gain exactly the given fields with these tags |
| StaleMarkers.InactiveMarkerAccumulator.DeactivateUnseenMetrics | collector/collector.go:322-380 | not skipped: one marker per cached and unseen series, and the cache becomes what was seen; skipped: no marker, and the cache becomes the union |
| StaleMarkers.EndGather | collector/collector.go:282-297 | deactivation is skipped for a failed gather when no time is known or it is less than five minutes ago, and the time is recorded in any case |
| StaleMarkers.CachedIff | collector/collector.go:322-380 | over any sequence of gathers, a series is cached exactly when it was seen and no marker was sent for it since, so each series ever seen is cached or was marked stale |
| StaleMarkers.CachedValue | collector/collector.go:365-377 | over any sequence of gathers, what is cached for a series is what the last gather that gave it said |
| StaleMarkers.SeenBetweenMarkers | collector/collector.go:326-360 | between two markers of a series it was seen again |
| StaleMarkers.SkipsIff | collector/collector.go:286-291 | in every run a gather skips the markers exactly when it failed and the gather before, if there is one, started less than five minutes earlier |
| StaleMarkers.SkipsAsBySuccessIff | collector/collector.go:286-296 | the exact cases in which comparing with the last completed gather, be it of an earlier input with the same id, differs from comparing with the last success |
| StaleMarkers.SecondFailureIsSkipped | collector/collector.go:286-296 | a run in which it differs: failures four and eight minutes after a success bring no marker |
| StaleMarkers.FailingNeverMarks | collector/collector.go:286-296 | an input that fails at every gather, less than five minutes apart, never gets a marker and keeps all its series |
| LabelsText.ConsumeQuotedValue | types/types.go:444-456 | the fast and slow path together read a quoted value as specified character by character, with its errors |
| LabelsText.ConsumeQuotedValueEscaped | types/types.go:459-491 | the slow path continues from where the fast path stopped |
| LabelsText.UnquoteQuoted | types/types.go:61-61 | reading a quoted value gives the value and what follows, for every value |
| LabelsText.QuotedForm | types/types.go:61-61 | a quoted value has no line feed, and is the value itself if nothing in it has to be escaped |
| LabelsText.LabelsToText | types/types.go:318-386 | the text is the non-empty labels in the order of their names, joined by commas |
| LabelsText.TextIsSorted | types/types.go:318-386 | the text is the join of the non-empty labels in ascending order of their names |
| LabelsText.TextToLabels | types/types.go:399-440 | the loop reads label after label, with every error of format reported |
| LabelsText.ReadIff | types/types.go:399-491 | a text is read exactly when it is a list of labels with valid names and properly quoted values, separated by commas, and then gives these labels, the last of a name counting |
| LabelsText.RoundTripIff | types/types.go:377-440 | reading back the text of a label set gives its non-empty labels exactly when their names are not empty and hold no equals sign |
| LabelsText.OneToOne | types/types.go:377-386 | with such names, two label sets have the same text exactly when their non-empty labels are the same |
| LabelsText.InvalidNamesCollide | types/types.go:377-386 | with other names two different label sets can have the same text |
| Sorting.SortStrings | types/types.go:333-333 | the keys in ascending order, each once |
| Sorting.BeforeIff | types/types.go:333-333 | the order is that of the first difference, a proper prefix coming first |
| Sorting.SortedOnce | types/types.go:377-381 | there is only one such order |
| DiscoveredServices.PublishedKeysMatchIff | discovery/discovery.go:879-938 | services are published under their own names exactly when no discovered one is renamed by its merged configuration |
| DiscoveredServices.PublishedConfig | discovery/discovery.go:879-895 | anything discovered or configured is published unless dropped, with the configured settings where there are any |
| DiscoveredServices.PublishedIdentity | discovery/discovery.go:897-938 | how its merged configuration names, types and activates a published service; the other modelled fields stay |
| DiscoveryUpdate.MergeFound | discovery/discovery.go:745-771 | the loop over the discovered services merges each into the copy, keeping earlier netstat information where it has to, and collects what is running |
| DiscoveryUpdate.LastFoundDecides | discovery/discovery.go:754-770 | when a service was returned twice, the last one decides all but what may be taken over |
| DiscoveryUpdate.FilteredIff | discovery/discovery.go:748-752 | exactly the ignored services are skipped |
| DiscoveryUpdate.Inherit | discovery/discovery.go:760-767 | taking over information from an earlier service never changes its identity |
| DiscoveryUpdate.InheritIs | discovery/discovery.go:760-827 | exactly when and what a service takes over from its earlier self: addresses, IP and netstat information, and nothing else, if it has none, the earlier ones are at most an hour old and its container did not change its IP |
| DiscoveryUpdate.Discovery.constructor | discovery/discovery.go:128-178 | the persisted services are known under their own names, the last one of each name |
| DiscoveryUpdate.Discovery.BeginUpdate | discovery/discovery.go:730-743 | the first locked section copies the known services, marks gone containers and starts to record removals |
| DiscoveryUpdate.Discovery.CommitUpdate | discovery/discovery.go:777-796 | the last locked section drops what was removed meanwhile unless it was found running, and publishes the rest |
| DiscoveryUpdate.Discovery.RemoveIfNonRunning | discovery/discovery.go:671-695 | the services are forgotten and unpublished, recorded as removed while an update works, and an update is asked for exactly when one of them was published |
| DiscoveryUpdate.StepIsAtomic | discovery/discovery.go:671-805 | every step keeps the invariant and changes the known services as the one-step view does |
| DiscoveryUpdate.UpdatesAreAtomic | discovery/discovery.go:671-805 | in every run of updates, aborts and removals from the start the known services are those of a view in which an update is one step at its commit |
| DiscoveryUpdate.RemovedStaysRemoved | discovery/discovery.go:671-805 | in every run from the start a removed service comes back, known or published, only if a later commit found it running, and no other service is lost |
| DiscoveryUpdate.RecordedIffBegunLast | discovery/discovery.go:686-787 | in every run from the start removals are recorded exactly when the last begin or commit was a begin, aborted or not |
| DiscoveryUpdate.AbortKeepsRecord | discovery/discovery.go:773-775 | an update that begins and is aborted leaves its record behind |
| DiscoveryUpdate.CommitAfterRemovals | discovery/discovery.go:777-789 | any number of removals during an update amount to one removal of all of them |
| DiscoveryUpdate.UpdateAtWork | discovery/discovery.go:671-775 | while an update is at work, and if it is aborted, known and published services stay as they were but for removals |
| DiscoveryUpdate.UpdateGives | discovery/discovery.go:730-796 | a whole update with any removals while it is at work: services found running are known with what they take over, all others refreshed if they were known and not removed, and all that are known or configured are published unless dropped |
| DiscoveryUpdate.TwoPhaseValues | discovery/discovery.go:730-789 | every service that was not both removed and found running is committed as an atomic update would |
| DiscoveryUpdate.TwoPhaseIsOnePhaseIff | discovery/discovery.go:730-827 | the two-phase update equals the atomic one, values included, exactly when no service removed and found running is due the netstat information of its removed self; services found have different names, since the dynamic discovery returns one per entry of a map by name and instance (discovery/dynamic.go:394-407, 1024-1030) |
| DiscoveryUpdate.RemovedSelfIsInherited | discovery/discovery.go:730-827 | two runs that differ in whether a removal comes before an update or falls into it, with different services in the end |
| Registrations.ServiceNeedUpdate | discovery/metrics.go:243-274 | a service is set up anew exactly when something differs on which inputs or checks depend, the whole list of addresses included |
| Registrations.DifferIff | discovery/metrics.go:243-274 | two services count as different exactly when they differ in any field other than netstat information and container, or in the state or process of the container |
| Registrations.DropAccounts | discovery/metrics.go:276-285 | unregistering keeps every registration live once or unregistered exactly once |
| Registrations.PutAccountsIff | discovery/metrics.go:430-444 | registering keeps that exactly when nothing was recorded under the service's own name |
| Registrations.Slots.Remove | discovery/checks.go:89-95 | the registration of the key is dropped and unregistered, if there is one |
| Registrations.Slots.Register | discovery/checks.go:456-488 | a new registration is recorded under the service's own name |
| Registrations.DropGoneServices | discovery/metrics.go:194-198 | registrations of services that are no longer published are dropped, in any order |
| Registrations.ConfigureInput | discovery/metrics.go:202-228 | a service that is as it was keeps its input; any other loses it, records what could be done, and has one exactly when it wants one and it could be registered |
| Registrations.ConfigureEach | discovery/metrics.go:202-228 | all services are set up in the given order, each recording its outcome |
| Registrations.ConfigureMetricInputs | discovery/metrics.go:193-231 | both loops, in any order: with services under their own names, afterwards exactly those have an input that are as they were and had one, or are new or changed, want one and could be registered |
| Registrations.ConfigureCheck | discovery/checks.go:72-86 | a check is replaced exactly when the service changed, and made unless the service is inactive or its check ignored |
| Registrations.ConfigureChecks | discovery/checks.go:65-87 | both loops, in any order |
| Registrations.Configurer.Reconfigure | discovery/discovery.go:697-710 | inputs and checks are configured against the services of the last reconfiguration, which are then replaced by a copy of the current ones |
| Registrations.PassAt | discovery/metrics.go:193-231 | with services under their own names, after a pass a key has a registration exactly when its service is published and either unchanged with one before, or changed and set up; unchanged ones keep theirs and changed ones get a new one |
| Registrations.ReportAt | discovery/metrics.go:216-226 | one outcome per published service: its own if it changed, else the earlier one |
| Registrations.RegistrationsFollowServices | discovery/discovery.go:671-710 | in every run of publishing, removals and reconfigurations each registration ever made is live once or was unregistered exactly once, live ones belong to services of the last reconfiguration that want them, and an outcome says registered exactly when an input is live |
| Registrations.NothingLeftBehind | discovery/discovery.go:704-707 | right after a reconfiguration no input, check or outcome is left for a service that is not published, even if it was removed since the one before |
| Registrations.WhoGetsAnInput | discovery/metrics.go:193-274 | after any run, a reconfiguration keeps the input of a service that agrees with the last one in everything but its netstat information; one that is new or changed gets a new registration exactly when its container is not stopped, it is active, its metrics are not ignored, it is no custom check and an input could be registered |
| Registrations.WhoGetsACheck | discovery/checks.go:65-86 | the same for checks: an active service whose check is not ignored gets one if it could be registered, and container states count only when there was and is a container |
| Registrations.OutcomeSaysWhy | discovery/metrics.go:216-226 | after any run, the outcome recorded by a reconfiguration names the first obstacle to an input, and that of a service that is as it was is kept |
| Registrations.ServicesOfRun | discovery/discovery.go:671-710 | the services are those last published, without those removed since, and a reconfiguration remembers them |
| Registrations.PlacesRightIff | discovery/metrics.go:430-444 | registrations end up under the keys of their services, for every order and every outcome, exactly when all services are kept under their own names |
| Registrations.LostForGood | discovery/metrics.go:430-444 | a registration that is neither live nor unregistered stays so through every later pass |
| Registrations.LosesNothingIff | discovery/metrics.go:276-444 | for all orders, outcomes and changes, every registration of two passes over services with the same keys and names is live or was unregistered exactly when all services are kept under their own names |
| Registrations.RenamedLosesFirst | discovery/metrics.go:276-444 | any one service under another name loses its first registration when it is set up a second time |
| Registrations.SharedNameLosesOne | discovery/metrics.go:430-444 | two entries with the same name lose a registration in one pass |
| ListenConflict.CollectClaims | discovery/dynamic.go:1014-1023 | the claims list every service as often as it lists the address |
| ListenConflict.FindStandardElsewhere | discovery/dynamic.go:1069-1083 | whether a claimant other than the service itself has the address as its standard port |
| ListenConflict.KeepAddresses | discovery/dynamic.go:1034-1093 | the copy-on-first-conflict loop gives the addresses that keep |
| ListenConflict.FilterConflictListenAddress | discovery/dynamic.go:1034-1106 | exactly the addresses the service keeps stay, in their order; nothing else changes, save that a service left with no address loses its netstat information |
| ListenConflict.FixListenAddressConflict | discovery/dynamic.go:1014-1106 | afterwards no address is listed by two services; an address survives at a service exactly when nobody else lists it and the service lists it once, or it is the standard port of that claimant and of none of another name; the order is kept and nothing else changes, save that a service left with no address loses its netstat information |
| ListenConflict.KeptIffListedAndKeeps | discovery/dynamic.go:1034-1106 | an address is in the filtered list exactly when it was listed and the service keeps it |
| ListenConflict.OneOwner | discovery/dynamic.go:1014-1106 | afterwards no address is listed by two services |
| ListenConflict.SurvivesIff | discovery/dynamic.go:1034-1106 | an address survives at a service exactly when only that service lists it, once, or it is the standard port of that claimant and of none of another name |
| ListenConflict.SelfConflictDrops | discovery/dynamic.go:1034-1106 | an address that one service alone lists, but twice, survives only as its standard port |
| DiscoveryLoop.Run | discovery/discovery.go:398-481 | the loop over triggers, retries, ticks and wanted updates makes exactly the discoveries of the timer machine |
| DiscoveryLoop.BackoffGrows | delay/jitter.go:29-43 | over growing n the exponential delay never decreases and stays between its base and its cap |
| DiscoveryLoop.BackoffStep | delay/jitter.go:29-43 | each failure after the first multiplies the delay by the factor, up to the cap |
| DiscoveryLoop.RetryDelayBounds | discovery/discovery.go:398-481 | retry delays lie between 30 and 600 seconds and never decrease with the number of failures |
| DiscoveryLoop.EveryRunIsOrderly | discovery/discovery.go:398-481 | in every run the retry timer is armed exactly when the last discovery failed and never with a wanted update, there are at most two ticker re-updates in a row, and retry delays over consecutive failures never decrease |
| DiscoveryLoop.TriggerRuns | discovery/discovery.go:433-438 | in every run each trigger runs a discovery |
| DiscoveryLoop.TickRunsIff | discovery/discovery.go:440-480 | in every run, after a failed discovery a tick retries exactly from its end plus the delay on; after another one a tick re-updates exactly from when the last discovery wanted it, 30 seconds later at least after a first re-update, and never after a second |
| DiscoveryLoop.WantedUpdateRuns | discovery/discovery.go:430-459 | an update wanted at a time by a triggered discovery or a retry that did not fail runs at the first tick from that time on, and not before |
| DiscoveryLoop.DelaysDouble | discovery/discovery.go:410-425 | in every run the delay before a retry is 30 seconds after the first failure in a row, then 60, 120, 240 and 480, and 600 from the sixth on |
| TriggerDebounce.Debouncer.Trigger | debouncer/debouncer.go:56-71 | a request while a run is pending changes nothing, otherwise a run is scheduled after the delay or the rest of the period |
| TriggerDebounce.Debouncer.Wake | debouncer/debouncer.go:73-83 | the delayed goroutine clears the pending mark and stamps the run |
| TriggerDebounce.Agent.FireTrigger | agent/agent.go:2090-2118 | flags are only ever added, and a run is requested |
| TriggerDebounce.Agent.MiscTick | agent/agent.go:1756-1764 | the second discovery is requested once its time has come, and only then |
| TriggerDebounce.Agent.CleanTrigger | agent/agent.go:2120-2134 | a run takes all flags and leaves none |
| TriggerDebounce.NoRequestIsLost | agent/agent.go:2090-2134 | in every interleaving from the start, with a live context, a set flag implies a pending run, a started run that has yet to clean, or a request about to be made by the lock's holder |
| TriggerDebounce.RequestIsTakenOrKept | agent/agent.go:2090-2134 | a flag once set is taken by a run or still set |
| TriggerDebounce.RequestCanBeServed | debouncer/debouncer.go:56-90 | after every run from the start that leaves a flag set and the context live, at most four events hand the flag to a run, within the longer of delay and period |
| TriggerDebounce.RunsAreSpaced | debouncer/debouncer.go:56-90 | in every run from the start successive runs are stamped at least a period apart |
| TriggerDebounce.RequestSchedules | debouncer/debouncer.go:56-71 | in every run from the start a request while none is pending schedules a run after the delay if there was none yet or the last is a period ago, else a period after that one; while one is pending it changes nothing |
| TriggerDebounce.FlagSetIff | agent/agent.go:2090-2134 | in every run from the start a flag is set exactly when it was requested since the last cleaning |
| TriggerDebounce.SecondDiscovery | agent/agent.go:1756-1764 | a second discovery is due a minute after it was asked for and is requested once that is past |
| TriggerDebounce.StartedAreCounted | debouncer/debouncer.go:73-90 | in every run from the start each run that started has cleaned, given up or is yet to, and the context is live until cancelled |
| TriggerDebounce.WaitBounds | debouncer/debouncer.go:65-70 | a wait is at most the longer of delay and period, and shorter than the delay exactly when the last run was less than a period but more than the difference of the two ago |
| TriggerDebounce.WaitIs | debouncer/debouncer.go:65-70 | the wait is the delay when there was no run yet or the last is a period ago, and otherwise ends a period after that run |
| TriggerDebounce.WaitCanBeShort | agent/agent.go:726-731 | with the agent's timing a request seven seconds after a run waits three seconds instead of five |
| ConfigMerge.Merge | config/loader.go:632-687 | merging fails exactly for values that are not two maps or two lists |
| ConfigMerge.MergeValues | config/loader.go:632-687 | the recursive loop gives the same result for every iteration order |
| ConfigMerge.AssociativeIff | config/loader.go:632-687 | grouping three values to the left or to the right gives the same exactly for regroupable ones |
| ConfigMerge.AssociativityFails | config/loader.go:632-687 | three maps for which the grouping matters |
| ConfigMerge.EveryGroupingMergesAlike | config/loader.go:632-687 | values whose kinds agree at every shared path can be merged in every grouping, with the result of loading them one after the other |
| ConfigMerge.PruneNilMapValues | config/loader.go:770-787 | the recursive loop prunes in every iteration order alike |
| ConfigMerge.PrunedAt | config/loader.go:770-787 | a path of the pruned value is a path of the value with no null at its end, and leads to the pruned value there |
| ConfigMerge.NoNullAfterPruning | config/loader.go:770-787 | no nested map holds a null after pruning, at any depth |
| ConfigMerge.PruneIdempotent | config/loader.go:770-787 | pruning twice is pruning once |
| ConfigMerge.MergedAt | config/loader.go:632-687 | any entry of the earlier source, map, list or scalar, survives where the later one does not decide, is combined with the entry there, and is gone under something else than a map |
| ConfigMerge.NewEntryAt | config/loader.go:632-687 | an entry that only the later source has is taken as it is |
| ConfigMerge.SharedEntryAt | config/loader.go:632-687 | where both sources have an entry, lists are appended, and the later one replaces the earlier unless both are maps or both lists |
| ConfigMerge.PrunedMergeAt | config/loader.go:142-155 | merging maps never fails, and any entry of an earlier file survives a later, pruned file wherever that file has no non-null value at the path or above it; elsewhere it is combined with the pruned entry |
| ConfigMerge.ListsOfFilesAreAppended | config/loader.go:621-631 | a list of an earlier file is kept where the later file says nothing and extended where it has a list |
| ConfigMerge.UnprunedNullClobbers | config/loader.go:142-155 | without pruning a null of the later file replaces whatever there was |
| ConfigBuild.LoadItems | config/loader.go:142-180 | the loop over the keys of a provider appends, in any order, one item per accepted key with its priority, and warns of nulls |
| ConfigBuild.ConfigLoader.Load | config/loader.go:106-183 | a load adds its accepted entries to the history |
| ConfigBuild.AcceptedAt | config/loader.go:142-155 | a load takes every entry that is not null, as it is or, for a struct-valued key, without the nulls at any path inside |
| ConfigBuild.ConfigLoader.Build | config/loader.go:536-560 | for every item list the value of a key is the left fold of merge over its items of highest priority in load order, and exactly the clashing items are reported |
| ConfigBuild.SetIffLoaded | config/loader.go:536-560 | a key is set exactly when some load gave it |
| ConfigBuild.ConflictsIff | config/loader.go:546-559 | an item is reported exactly when it meets an earlier one of its key, none of higher priority, and cannot be merged with what those of its priority amount to |
| ConfigBuild.TopIsMaximum | config/loader.go:542-560 | the priority that counts is the greatest |
| ConfigBuild.MapKeyIff | config/loader.go:469-505 | a key counts as a map key exactly when its dotted path starts with that of one |
| ConfigBuild.ResolveSnoc | config/loader.go:546-559 | one more item overwrites, merges or is ignored by its priority |
| ConfigBuild.ScalarKeyResolution | config/loader.go:469-505 | a scalar key is the environment's value, else the last file's, else the default, and two environment values leave null |
| ConfigBuild.GroupedKeyResolution | config/loader.go:469-560 | a map key, or a key for which files give lists, is the merge in load order of the environment's values, else of the files', else of the defaults; where the environment adds entries it counts among the files |
| ConfigBuild.MapKeyResolution | config/loader.go:469-560 | for maps this merge never fails and is the left fold |
| ConfigBuild.ListKeyResolution | config/loader.go:469-560 | for lists it is their concatenation |
| ConfigUnflatten.TakeNestedMapFromFlatConfig | config/config.go:640-673 | exactly the keys below the parent are deleted, the nested map is built from them in some order, and a map under the parent key is filled in place and stays |
| ConfigUnflatten.BelowHas | config/config.go:640-673 | what is nested is every flat key that starts with the parent key and a dot, by its path |
| ConfigUnflatten.BelowOnly | config/config.go:640-673 | what is nested is nothing but such keys |
| ConfigUnflatten.FlattenUndoesUnflatten | config/config.go:640-673 | for prefix-free keys flattening the result gives back exactly the leaves |
| ConfigUnflatten.OrderIrrelevant | config/config.go:640-673 | for prefix-free keys every order gives the same nested map |
| ConfigUnflatten.OrderIndependentIffPrefixFree | config/config.go:640-673 | and only for those |
| ConfigUnflatten.LeavesDetermine | config/config.go:640-673 | nested values with the same leaves are equal |
| Strings.JoinSplit | config/config.go:640-673 | joining the parts of a key gives the key |
| Strings.SplitJoin | facts/auto_upgrade.go:291-293 | splitting joined parts gives the parts, if none holds the separator |
| LegacyLogInputs.AddFilter | config/config.go:907-978 | one filter creates its metric or appends its condition in place |
| LegacyLogInputs.MergeLegacyFilters | config/config.go:907-978 | the table then holds the definitions of all filters so far, and the touched metrics and warnings are those of these filters |
| LegacyLogInputs.EveryDropIsReported | config/config.go:907-978 | a filter is reported as dropped exactly when it is not usable |
| LegacyLogInputs.DefinitionsAre | config/config.go:907-978 | a metric holds the conditions of all its usable filters, in order, and the labels of the first |
| LegacyLogInputs.ConditionIff | config/config.go:922-976 | a metric has a condition exactly when some filter with a metric and a pattern gives it, the exclusion included |
| LegacyLogInputs.LabelsAreOfFirst | config/config.go:949-958 | the labels of a metric are those of the first filter that gives it a condition |
| LegacyLogInputs.TouchedIffConditions | config/config.go:907-978 | an entry touches exactly the metrics it gives a condition |
| LegacyLogInputs.TouchedInOrder | config/config.go:960-964 | metrics come in the order in which they are first used |
| LegacyLogInputs.ConditionsAppend | config/config.go:907-978 | conditions are collected entry by entry without loss or reordering |
| LegacyLogInputs.OwnConditionsIncluded | config/config.go:1017-1100 | the conditions of each translated entry are a contiguous part of those of its metrics |
| LegacyLogInputs.NoOtherConditions | config/config.go:1017-1100 | a metric has a condition exactly when some translated entry gives it |
| LegacyLogInputs.LegacyNameInjective | config/config.go:893-902 | entries of one provider get different receiver names |
| LegacyLogInputs.DecimalIsRead | config/config.go:893-902 | the number in a name is the decimal of the index of its entry |
| LegacyLogInputs.NewNamesAre | config/config.go:1094-1096 | the receivers added bear exactly the names of the translated entries |
| LegacyLogInputs.CloneMetrics | config/config.go:1129-1145 | copies are new objects with the same content |
| LegacyLogInputs.EmbedMetrics | config/config.go:1108-1119 | every receiver gets copies of its metrics, and no two share one |
| LegacyLogInputs.FoldInputs | config/config.go:1029-1102 | every entry is folded in or dropped, with exactly its warnings, and own receivers of other names stay untouched |
| LegacyLogInputs.ReportedIff | config/config.go:907-1099 | a warning is given exactly when the entries call for it: for each that cannot be read, has no filters, has nothing to read, or was migrated; for a path beside containers; for every dropped filter; and for every metric that two entries define |
| LegacyLogInputs.MigrateLogInputs | config/config.go:991-1124 | each translated entry becomes a receiver that reads its file, or its containers if it has none, and holds, for every metric it touches, the conditions of all translated entries; the warnings are exactly those called for; receivers share no metric; `log.inputs` is gone and every key outside the receivers is as it was; and the user's own receivers survive with their content exactly when there is nothing to migrate, or entries are translated under names the user does not use, or none is and the user's receivers are a map under their key or there are none |
| LegacyLogInputs.OwnNames | config/config.go:640-673 | the names of the user's own receivers do not depend on the iteration order |
| LegacyLogInputs.MalformedEntryLosesReceivers | config/config.go:1013-1106 | migrating a configuration of `log.inputs` with one malformed entry and one receiver in dotted form leaves nothing of either |
| LegacyLogInputs.TranslatedEntryReplacesReceiver | config/config.go:1094-1096 | migrating a configuration of `log.inputs` with a translated entry and a receiver that bears its name replaces the receiver |
| PatternWindow.ReadUntilPatternFound | check/tcp.go:209-245 | the read loop over a real buffer reports the pattern after the first read at which it is in the window, and otherwise ends with the error or at the end of the reads |
| PatternWindow.FirstBytesAre | check/tcp.go:224-230 | until the buffer overflows the reported bytes are the first ones of the stream, fifty at most |
| PatternWindow.FeedBuffer | check/tcp.go:216-222 | one read into the buffer, with the shift and cut on overflow |
| PatternWindow.WindowIsRecent | check/tcp.go:214-222 | for aligned reads the window is the most recent part of the stream |
| PatternWindow.FoundIffInStream | check/tcp.go:209-245 | for aligned reads a pattern of at most 4096 bytes is found exactly when it is in the stream so far |
| PatternWindow.StraddlingPatternMissed | check/tcp.go:216-222 | a read that overflows a partly filled buffer hides a pattern across its start |
| PatternWindow.AgreesIffAligned | check/tcp.go:209-245 | the search agrees with searching the whole stream, for all bytes, patterns and reads, exactly when no read overflows a partly filled buffer |
| FactsCleaning.CleanFacts | facts/facts.go:510-526 | every value is trimmed of all Unicode blanks, dropped if blank, and cut to 100 bytes if too long |
| FactsCleaning.CleanAgain | facts/facts.go:510-526 | cleaning twice is cleaning once |
| FactsCleaning.BlankIffSpace | facts/facts.go:512-512 | the blanks are exactly the UTF-8 encodings of the white space code points |
| FactsCleaning.DroppedIffBlank | facts/facts.go:513-517 | a value is dropped exactly when it is all blank |
| FactsCleaning.CleanedForm | facts/facts.go:510-526 | a value is its cleaned form between blanks, unless that has 100 bytes or more: then its first 97 are kept, with three dots |
| AutoUpgrade.CombineVerdicts | facts/auto_upgrade.go:288-329 | in any iteration order the value lists, sorted, the problems found and the earlier ones whose check did not answer or was busy; it fails exactly when there are none, no earlier value and an unanswered check |
| AutoUpgrade.CombineFailsIff | facts/auto_upgrade.go:300-324 | there is no value exactly when there was none before, some check gave no answer, and no check found a problem |
| AutoUpgrade.CombinedValue | facts/auto_upgrade.go:288-329 | any value lists, in ascending order, the problems found and the earlier ones whose check did not say they are gone, or is ok if there are none |
| AutoUpgrade.CheckStatus | facts/auto_upgrade.go:209-275 | which observation of the repository, locks, dpkg and run gives which verdict, and when no status applies |
| AutoUpgrade.FindingsCoverProblems | facts/auto_upgrade.go:215-228 | each of the four checks has its verdict under the problem it looks for, and nothing else has one |
| AutoUpgrade.ReportedStatus | facts/auto_upgrade.go:288-329 | splitting a value gives back exactly the problems it was made of |
| AutoUpgrade.StatusIsClean | facts/facts.go:510-526 | no value the checks can give is changed by cleaning |
| AutoUpgrade.CheckedReports | facts/facts.go:280-308 | what a refresh stores, given the earlier value |
| AutoUpgrade.ReportedIffFoundAndKept | facts/facts.go:280-308 | over any sequence of refreshes a problem is reported exactly when its own check found it and has not answered fine since, as long as the checks apply |
| AutoUpgrade.ValueStays | facts/auto_upgrade.go:277-287 | once a value is stored, combining never fails and a value stays stored until the checks no longer apply |
| FactStamp.FactsCountIgnoringUpdatedAt | facts/facts.go:393-399 | the number of other facts |
| FactStamp.FactsEqualIgnoringUpdatedAt | facts/facts.go:375-391 | comparing counts and one direction is equality of all other facts |
| FactStamp.FactUpdatedAt | facts/facts.go:356-372 | the old stamp is kept exactly when it is a time less than 30 minutes ago and no other fact changed |
| FactStamp.AfterFullAt | facts/facts.go:330-372 | a full refresh takes every collected fact but the stamp, which stays if it is a time less than 30 minutes old and no other fact changed, and else is the collected one |
| FactStamp.StampLasts | facts/facts.go:54-62 | when no other fact changed, a stamp that is a time lasts at least 30 minutes |
| FactStamp.MergeAutoUpgradeFacts | facts/facts.go:257-272 | the auto-upgrade facts are replaced, and the facts stay as they are if that changes nothing |
| FactStamp.ReplacedDiffersIff | facts/facts.go:257-272 | it changes something exactly when one of the two auto-upgrade facts differs or is gone |
| FactStamp.AfterUpgradesAt | facts/facts.go:257-272 | an auto-upgrade refresh replaces its two facts, keeps all others, and sets the stamp exactly when one of the two changed |
| FactStamp.StampChangesForAReason | facts/facts.go:257-372 | in every run of refreshes the stamp changes only if some refresh saw another fact change or found the stamp missing, invalid or old, or it was set by hand |
| FactsCache.FactProvider.CurrentFacts | facts/facts.go:178-183 | the facts and whether their refresh started at or after the cutoff |
| FactsCache.FactProvider.SetFact | facts/facts.go:203-221 | a new map with the fact becomes the current one, the fact is remembered as set by hand, and all maps published before keep their contents |
| FactsCache.FactProvider.UpdateFacts | facts/facts.go:330-349 | nothing changes if cancelled, otherwise a new map with cleaned and stamped facts becomes the current one with the time the refresh started; the facts set by hand before it are in it and stay set, and all maps published before keep their contents |
| FactsCache.FactProvider.MergeUpgrades | facts/facts.go:257-272 | a new map becomes the current one if a fact changed, without touching the time of the refresh or any map published before |
| FactsCache.ManualFactsAreThoseSet | facts/facts.go:200-221 | in every interleaving the facts set by hand are those last given to SetFact: no refresh forgets any |
| FactsCache.RefreshedFactsAre | facts/facts.go:200-203 | in every interleaving, every full refresh that is not cancelled holds, for every key but the stamp that neither the cloud nor the auto-upgrade gives, the cleaned value last set by hand, and else that of the system |
| FactsCache.SetFactIsSeen | facts/facts.go:203-221 | a fact set by hand is seen at once, and no other fact changes |
| FactsCache.RefreshAt | facts/facts.go:330-349 | every fact but the stamp has, after a full refresh, its cleaned value from the last of the system, SetFact, the auto-upgrade and the cloud |
| FactsCache.ManualFactsStay | facts/facts.go:501-503 | a fact set by hand is in a full refresh, cleaned, unless the auto-upgrade or the cloud gives it too or it is the stamp |
| FactsCache.FactsAreFresh | facts/facts.go:142-175 | in every interleaving of callers with a monotone clock, facts returned without error come from a refresh that started no earlier than the caller's cutoff or arrival, so not before the cutoff if the maximum age is not negative |
| FactsCache.ReturnedFactsNeverChange | facts/facts.go:142-272 | in every interleaving a map that was returned holds the same facts ever after, whatever is refreshed, merged or set later |
| FactsCache.OneRefreshAtATime | facts/facts.go:142-253 | at most one caller refreshes, and not while the auto-upgrade facts are refreshed |
| FactsCache.NoNeedlessRefresh | facts/facts.go:153-158 | in every interleaving a refresh under way was needed by its caller, whatever others refreshed while it waited |
| FactsCache.AnswerIsCurrent | facts/facts.go:142-175 | whoever comes back has the map that is current at that time, and an error exactly if its context has one |
| FactsCache.LooksDecide | facts/facts.go:142-162 | a look at the cache sends the caller back exactly if the facts are fresh enough for it, the first without waiting and the second without refreshing again |
| FactsCache.SomebodyCanGoOn | facts/facts.go:142-175 | in every interleaving, while some caller is not back yet, it or whoever it waits for can go on |
| FactsCache.UpgradesAreMerged | facts/facts.go:231-272 | an auto-upgrade refresh changes its own facts and the stamp only, and nothing before the first full refresh or when cancelled |

## Left out

- I/O, commands, clocks, contexts and the environment are parameters or free choices of events; the scheduler is the order of events.
- Foreign code (Telegraf, Prometheus, koanf, mergo, YAML, regexes, time formats) is not modelled: decoded values, gather results and parsed times are given.
- FactsCleaning: characters stand for the bytes of the text.
- CollectorProtocol: each AddInput gets an input object of its own; the deadlines after which RemoveInput and Close stop waiting for the stopping goroutine are not modelled, since nothing but the wait depends on them.
- FindFreeId: ids are unbounded integers, so the wrap-around that the error branch tests for needs more inputs than memory can hold.
- StaleMarkers: gathers of one input do not overlap; the values handed on to the next accumulator by `doAdd` are not modelled, only what is recorded of them.
- LabelsText: `LabelsToTextNicer` is not modelled; characters stand for bytes.
- DiscoveryUpdate: the search for services itself, and refreshing containers, are given by parameters; `Discovery.Close` is not modelled.
- DiscoveredServices: of what overrides do, only the effects on identity and activity are modelled, with all other settings as one value.
- Registrations: whether an input or a check can be built for a service type and registered is a free choice per service; listen addresses are compared as values.
- ListenConflict: shared backing arrays of address lists are not modelled, only the lists returned.
- ConfigMerge: that merging and pruning update the first map in place, which the loader relies on no longer needing it, is modelled on values.
- ConfigUnflatten: the walk down nested maps is modelled as a recursive insertion on values; that the map under the parent key is the one filled is modelled.
- ScalarKeyResolution: fewer loads than the priority of the environment (2^31 - 1), as the code assumes.
- ConfigBuild: the passes after the item loop (known log formats, legacy listeners, duplicate listener names) are not modelled.
- LegacyLogInputs: entries are taken as decoded, with the hash of the provider's path given.
- FactStamp: reading a stamp as a time is a parameter; times are whole seconds.
- FactsCache: the facts of the system and of the cloud are parameters; `FastFacts` and callbacks are not modelled.
- AutoUpgrade: `autoUpgradeIsEnabled` and the fact that says so are not modelled beyond being replaced together with the status; how the locks, the dpkg journal and the service are inspected is given by their answers.
- Discovery of containers and processes, the HTTP API, the Bleemeo connector, stores, registries, diagnostics and the web interface are not part of this model.
