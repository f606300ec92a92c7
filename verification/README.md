# odd-box: a verified model of its shared-state protocols

odd-box is a reverse proxy that also starts, watches and stops local processes.
This project models the logic its tasks share: the tables of tracked connections
and the observer that mirrors them, the port chooser and the configuration store,
the supervisor loop with its stop helper and status events, the site lookup with
its cache, and the two listeners with the permits they share.

Three kinds of members carry the model. Code that updates fields in place is a
class whose methods are proved against specification functions. Protocols of
several tasks are machines: a total `Next` over labelled steps, where a label
carries what the outside world answered, and `Exec` over any sequence of them.
Pure code is functions with lemmas.

## Files

| file | what it models |
|---|---|
| `wrappers.dfy`, `runs.dfy`, `text.dfy`, `sites.dfy` | optional values, runs of a machine, ASCII text and decimal ports, the configured entities |
| `placeholders.dfy` | the chained replacement of `$root_dir`, `$cfg_dir` and `~` |
| `allocator.dfy` | busy ports, the port chooser, and all host loops calling it |
| `store.dfy` | named lists and the maps kept beside them, upserts, reload and persist |
| `validator.dfy` | what a valid configuration is, and the counting that decides it |
| `config_wrapper.dfy` | the configuration object with its methods |
| `lookup.dfy` | host name filter, the three overriding scans, the cache, runs |
| `tracking.dfy` | connection tables, event channel, observer, runs |
| `permits.dfy` | listeners, rebinds, handlers and the 200 permits |
| `status.dfy` | status map entries and the events sent for them |
| `stopper.dfy` | the INT, TERM, KILL helper with its time budget |
| `supervisor.dfy` | the host loop, command draining, deletion, exit |

## What the proofs turned up

Each of these is a place where a property one would expect does not hold of the
code. The lemma named shows a concrete run, or the exact condition.

- A configuration reload copies active ports from the thread map
  (`src/configuration/reload.rs:57-62`), which is written only once a child has been
  spawned (`src/proc_host.rs:429`), and installs the result later, after a wait and
  without holding the configuration lock (`src/configuration/reload.rs:109-168`). It
  keeps the bookkeeping right exactly when the ports it has copied are the ones the
  loops hold at the moment of installation (`SwapSafeExactly`). It is not enough that
  all ports are published: `EarlyReadSharesPort` reads too early, and in
  `LateSwapSharesPort` all ports are published at the read and at the installation,
  but one has moved in between. In both runs two loops end up with one port;
  `SwapLetsShareExactly` says when the next call of another loop can do that. It stays
  possible for later calls as well: the loop whose port was forgotten keeps its port
  at its own calls without writing it back (`HolderRepairsNothing`).
- The chooser compares a PORT variable as text with printed port numbers, but then
  parses it, so `04200` or `+4200` slips past the conflict test (`CollisionExact`,
  `CollisionsHappen`). The same lemma gives the two other ways to return a port held
  by another site.
- The search for a free port increments a 16-bit counter without a limit; it stays
  in range exactly when not all ports from the range start are excluded
  (`SearchEndsExactly`).
- Writing an active port does not invalidate the lookup cache; `StaleExactly` says
  when a cached answer then differs from a fresh scan, `PortMoveGoesStale` gives a run.
- A cancelled listener that holds a forgotten permit never returns it. One hundred
  rebinds can use up all permits, after which nothing is ever accepted again
  (`HundredRebindsStarve`, `StarvedForever`).
- No removal of a status entry is announced: not by the loop when it is deleted or
  marked for removal (`src/proc_host.rs:228`, `266`, `579`), nor by the deletion
  handler (`src/api/controllers/sites.rs:346`), the container thread or a reload. After
  a running site is deleted its last event still says that it is running
  (`DeletionIsUntold`; `DeletedSiteLooksRunning` is a run).
- Some tasks write another state into the status map without an event: the keys `z`
  and `s` of the terminal interface (`src/tui/mod.rs:570-596`), the container thread
  (`src/main.rs:882`), and the listing of remote sites and directory servers
  (`src/configuration/reload.rs:141-148`). A container's host name is a free label, so
  it can be that of a hosted site. `SilentEditBreaks` gives runs.
- These removals and writes, where they change the entry, are exactly the steps after
  which a receiver of the events no longer holds the entry (`StepToldExactly`); a
  publication informs it again exactly when it changes the entry
  (`PublishTellsExactly`).
- When the stop helper gives up, the loop goes on; a loop whose name was taken over
  can then leave any number of live children behind (`FailedStopsAccumulate`). A second
  child is live exactly when one is spawned beside a lost one that still lives
  (`RunOneChildExactly`).
- A lagging broadcast channel that drops the latest event of a connection leaves the
  observer with a wrong record (`LagBreaksAgreement`). At rest these are exactly the
  monitored connections that disagree (`TablesAgree`).
- A directory that ends in the beginning of a placeholder, such as `/a$`, is completed
  by the text behind it; `ResolutionExactly` and `ResolutionIdempotent` say exactly
  which directories resolve every text.

The functions that track connections have a limit that their callers respect: a key
must not be added twice (`ReuseBreaksAgreement`), nor rewritten by a mutator.

## Model

| member | source | states |
|---|---|---|
| `Tracking.TablesAgree` | src/proxy.rs:888-945 | over every interleaving of adds, mutations, deletions, inspection toggles, observer steps and lags, once the queue is drained and no call is open, a monitored connection is active in the same version if and only if its latest update or close was not dropped, and then with the same record; with inspection always on exactly the active connections are monitored, keys dropped apart |
| `Tracking.StepKeepsInv` | src/observer.rs:20-47 | each atomic step of any task or of the observer keeps the per-key relation between active table, monitored table, open call and queued events |
| `Tracking.SendKeepsInv` | src/proxy.rs:932-943 | sending the event a call owes, while the entry is locked or after removal, completes the call without breaking the relation |
| `Tracking.ProcessKeepsInv` | src/observer.rs:26-43 | handling one event, or resetting when inspection was off, keeps the relation |
| `Tracking.LagKeepsInv` | src/observer.rs:26 | dropping queued events keeps the relation of every key whose latest update or close stays queued |
| `Tracking.StepKeepsOrder` | src/proxy.rs:930-933 | what the observer holds and has yet to see of a key rises strictly in version up to the last event sent, and stays below it once that event is dropped |
| `Tracking.StreamReplays` | src/proxy.rs:911-943 | every event stream is lawful, lagging receivers or not, and with no call open it replays exactly to the active table |
| `Tracking.ClosedAtMostOnce` | src/proxy.rs:937-944 | at most one close is sent per key however often deletion is called |
| `Tracking.ClosesMatchOpens` | src/proxy.rs:937-944 | in a lawful stream closes and the opening still in force add up to the openings |
| `Tracking.OpenedAtMostOnce` | src/proxy.rs:895-911 | a key added once is announced at most once |
| `Tracking.ActiveVersionCountsUpdates` | src/proxy.rs:930-932 | the version of an active connection is its first version plus one per update, whatever mutators do to it |
| `Tracking.AddCallEffect` | src/proxy.rs:895-911 | the whole effect of an uninterrupted add on both tables and the channel |
| `Tracking.DeleteCallEffect` | src/proxy.rs:937-944 | a deletion removes and announces, or changes nothing |
| `Tracking.ReuseBreaksAgreement` | src/proxy.rs:895-911 | a run in which a key added twice leaves a wrong version monitored |
| `Tracking.LagBreaksAgreement` | src/observer.rs:26-43 | a run in which a dropped close leaves a dead connection monitored |
| `Tracking.ConnectionTables.AddOrUpdateConnection` | src/proxy.rs:888-916 | equals the add steps of the machine, with the connection type resolved, or nothing when the key was dropped |
| `Tracking.ConnectionTables.MutateTrackedConnection` | src/proxy.rs:918-935 | equals the locked mutation and its update, or nothing for an unknown key |
| `Tracking.ConnectionTables.DelConnection` | src/proxy.rs:937-945 | equals the removal and its close; a second call changes nothing |
| `Tracking.ConnectionTables.Push` | src/observer.rs:197-339 | updates replace or insert the record, traffic may mark a known record, openings change nothing |
| `Tracking.ConnectionTables.ObserveNext` | src/observer.rs:26-43 | one round of the observer equals the receive, decide and process steps |
| `Tracking.DecodeMeaning` | src/observer.rs:243-337 | traffic sets at most the two flags, only to true and only when it shows them, and towards the client settles only an open question |
| `Tracking.TrafficIsSeen` | src/observer.rs:257-335 | traffic of a connection reaches its monitored record |
| `Tracking.InspectionIsObeyed` | src/observer.rs:28-31 | switching inspection off clears the monitored table at the next event, switching it on lets it take effect |
| `Allocator.AllocationSafe` | src/configuration/mod.rs:563-650 | any interleaving of loops calling the chooser, publishing and reloading, where every installed configuration carries the ports the loops hold, keeps: no shared active port, no active port equal to another site's configured one, local port equal to the shared record |
| `Allocator.AllocationSafeFromStart` | src/proc_host.rs:311-315 | the same from the state in which no loop has a port yet |
| `Allocator.AllocateTakes` | src/configuration/mod.rs:563-650 | in a safe state a call either reports overflow and changes nothing or gives the loop and its record one port no other site holds |
| `Allocator.FallThroughUnreachable` | src/configuration/mod.rs:573-581 | in a safe state the current port is never held by another site, so the branch that keeps a conflicting port is dead |
| `Allocator.SwapSafeExactly` | src/configuration/reload.rs:57-168 | installing a reloaded configuration of unchanged sites keeps the state safe if and only if the copied ports are the ones the loops hold |
| `Allocator.EarlyReadSharesPort` | src/configuration/reload.rs:57-62 | a run in which the thread map is read before a port is published and two loops end up with it |
| `Allocator.LateSwapSharesPort` | src/configuration/reload.rs:109-168 | a run in which all ports are published at the read and at the installation, one moves in between, and two loops end up with it |
| `Allocator.SwapLetsShareExactly` | src/configuration/reload.rs:165-168 | after an installation the next call of another loop can take the port a loop holds if and only if no other copied entry names it, its holder is not configured for it, and the caller names it or searches from a start not above it |
| `Allocator.HolderRepairsNothing` | src/configuration/mod.rs:573-577 | a loop whose port no record shows keeps it at its own calls without writing a record, while it is unoccupied |
| `Allocator.CanChooseExactly` | src/configuration/mod.rs:566-628 | some probe answers make the chooser return a port it does not hold if and only if the request names that port, or names nothing usable and has no conflicting port, and the port is free and in range |
| `Allocator.UnavailableExact` | src/configuration/mod.rs:438-461 | a port is unavailable if and only if another site is configured for it or uses it |
| `Allocator.CurrentPortIsKept` | src/configuration/mod.rs:573-577 | a current port nobody else has and nothing occupies is kept |
| `Allocator.ConfiguredPortIsChosen` | src/configuration/mod.rs:584-595 | otherwise a configured port no other site has is chosen |
| `Allocator.RandomPortIsChosen` | src/configuration/mod.rs:586-587 | otherwise configured port 0 takes what the system offers |
| `Allocator.VariablePortIsChosen` | src/configuration/mod.rs:596-602 | otherwise, with no configured port, the first PORT variable decides when it is a number no other site's port prints as |
| `Allocator.ConflictingPortIsKept` | src/configuration/mod.rs:573-607 | when nothing usable is named, a current port another site has too is kept |
| `Allocator.SearchIsReached` | src/configuration/mod.rs:609-628 | and in all other cases the first port from the range start that is neither taken nor occupied is chosen, or there is none |
| `Allocator.EveryRequestIsDecided` | src/configuration/mod.rs:566-628 | these cases cover every request |
| `Allocator.EnvPortIsFirst` | src/configuration/mod.rs:596 | the variable read is the first one named PORT in any letter case |
| `Text.ParsePortExact` | src/configuration/mod.rs:600 | a text parses to a port if and only if it is the port as printed, behind any zeros and at most one plus sign |
| `Text.EqIgnoreCaseExact` | src/configuration/mod.rs:596 | two texts are equal but for letter case if and only if they are letter by letter |
| `Allocator.CollisionExact` | src/configuration/mod.rs:566-607 | the chosen port is held by another site if and only if the current one is not kept and one of three guards holds |
| `Allocator.CollisionsHappen` | src/configuration/mod.rs:584-607 | each of the three guards does occur |
| `Allocator.AutomaticPortIsLeast` | src/configuration/mod.rs:609-628 | the automatic port is the least usable one at or above the range start |
| `Allocator.SearchEndsExactly` | src/configuration/mod.rs:614-625 | the search ends within 16 bits if and only if fewer ports are excluded than the range holds |
| `Text.PrintedComparisonExact` | src/configuration/mod.rs:597-600 | comparing printed text agrees with comparing parsed numbers exactly for canonical decimal texts |
| `Configuration.ConfigWrapper.SetActivePort` | src/configuration/mod.rs:563-650 | returns the specified choice and records it in the first record with the id, unless the current port is simply kept |
| `Configuration.FirstFit` | src/configuration/mod.rs:614-625 | the increment loop computes the first fit |
| `Configuration.SaveActivePort` | src/configuration/mod.rs:634-639 | exactly the first record with the id changes, and only its active port |
| `Configuration.FilterOthers` | src/configuration/mod.rs:569-571 | keeps the ports of the other processes in order |
| `Configuration.ConfigWrapper.IsValid` | src/configuration/mod.rs:295-404 | accepts if and only if the declarative predicate holds, and any reported error is really present, duplicates listed exactly |
| `Configuration.CheckHosted` | src/configuration/mod.rs:332-372 | the hosted loop stops at the first site with an error, and otherwise has counted all names and collected all fixed ports |
| `Configuration.CheckRemotes` | src/configuration/mod.rs:315-330 | the remote loop stops at the first site with an error, and otherwise has counted all names |
| `Configuration.CheckEnv` | src/configuration/mod.rs:355-371 | finds a numeric PORT variable that differs from the fixed port if and only if there is one |
| `Validator.HostedError` | src/configuration/mod.rs:346-371 | a hosted site has no error if and only if the Let's Encrypt conditions and the PORT condition hold, and an error found is a fault of the site |
| `Validator.FirstErrorExact` | src/configuration/mod.rs:315-372 | stopping at the first error finds none if and only if every site passes, and else one that some site has |
| `Validator.CountsShowDistinct` | src/configuration/mod.rs:374-384 | names counted more than once are the repeated ones; none if and only if all names differ |
| `Validator.PortHostsShowDistinct` | src/configuration/mod.rs:386-401 | ports with several hosts are the repeated ones; none if and only if no two sites fix the same port |
| `Validator.CountMapIsMultiset` | src/configuration/mod.rs:305-336 | the counters give each name its number of occurrences |
| `Validator.NamesDistinctExactly` | src/configuration/mod.rs:305-336 | all names are distinct if and only if they are in each list and across the three |
| `Configuration.ConfigWrapper.constructor` | src/configuration/mod.rs:212-235 | a new wrapper has both maps loaded from the vectors |
| `Configuration.ConfigWrapper.ReloadDashmaps` | src/configuration/mod.rs:238-260 | from any stale maps, both give the last vector entry of each name |
| `Configuration.ConfigWrapper.Persist` | src/configuration/mod.rs:264-288 | the vectors list the map values once each, an empty map becoming an absent vector |
| `Configuration.InsertAll` | src/configuration/mod.rs:243-253 | inserting one by one builds the map of last entries |
| `Configuration.ConfigWrapper.AddOrReplaceHostedProcess` | src/configuration/mod.rs:491-501 | the list becomes the upsert of the old list |
| `Configuration.ConfigWrapper.AddOrReplaceDirSite` | src/configuration/mod.rs:504-517 | the same upsert although the removals are in the other order |
| `Configuration.ConfigWrapper.AddOrReplaceRemoteSite` | src/configuration/mod.rs:520-533 | the same upsert although the removals are in the other order |
| `Store.AsMapIsLast` | src/configuration/mod.rs:238-260 | a name is bound if and only if it occurs, to its last record |
| `Store.ReloadThenPersist` | src/configuration/mod.rs:238-288 | reload then persist permutes the list if and only if no name occurs twice |
| `Store.PersistThenReload` | src/configuration/mod.rs:238-288 | persist then reload is the identity on maps keyed by host name |
| `Configuration.ConfigWrapper.PersistAndReload` | src/configuration/mod.rs:238-288 | on the wrapper, persist then reload gives the maps back and leaves no empty vector |
| `Configuration.ConfigWrapper.ReloadAndPersist` | src/configuration/mod.rs:238-288 | on the wrapper, reload then persist permutes each vector if and only if no name repeats, and leaves one absent if and only if nothing was listed |
| `Store.ChangesRefine` | src/configuration/mod.rs:491-533 | any sequence of upserts refines remove-both-names-then-bind on a finite map and keeps names unique |
| `Store.ChangesKeepOrder` | src/configuration/mod.rs:491-533 | records whose names no change mentions keep their order |
| `Store.UpsertPutsLast` | src/configuration/mod.rs:494-496 | the new record goes last, behind exactly the old records of neither name |
| `Placeholders.ResolutionComplete` | src/configuration/mod.rs:780-784 | with sealed directories no placeholder is left in any text |
| `Placeholders.ResolutionExactly` | src/configuration/mod.rs:780-784 | for directories such as absolute paths and ".", no placeholder is left in any text if and only if no directory begins, at any place, a placeholder replaced before it or with it |
| `Placeholders.ResolutionIdempotent` | src/configuration/mod.rs:780-798 | for the same directories, resolving again changes no text under the same condition and only then |
| `Placeholders.PlainPathsAreSealed` | src/configuration/mod.rs:407-428 | absolute paths and paths from "." that hold neither '$' nor '~' meet the condition |
| `Placeholders.NothingCreated` | src/configuration/mod.rs:780-784 | a replacement creates no occurrence of its own or of an absent placeholder |
| `Placeholders.ReplaceFirst` | src/configuration/mod.rs:780-784 | a replacement keeps what precedes the first occurrence and goes on behind it |
| `Placeholders.DollarAtTheEndMatters` | src/configuration/mod.rs:780-784 | a root ending in '$' leaves a placeholder in a given text, while '~' or an inner '$' in a root do no harm |
| `SiteLookup.CachedLookupIsScan` | src/main.rs:163-286 | over every run from an empty cache with configuration changes paired with invalidation and free container changes, the cached answer is the scan's, hits are hosted, and a hosted site beats a container |
| `SiteLookup.LookupStaysCoherent` | src/main.rs:163-286 | a lookup caches only what the scan says |
| `SiteLookup.RefreshStaysCoherent` | src/main.rs:869-889 | replacing the container list without invalidation keeps the cache coherent |
| `SiteLookup.AnswersAreRemembered` | src/main.rs:165-177 | an answer is given again while its process has a thread, even after the site or container list changes, and not after the thread ends or the cache is cleared |
| `SiteLookup.DeadThreadMisses` | src/main.rs:165-177 | without a thread the answer is the scan's and replaces the remembered one |
| `SiteLookup.ReconfigurationTakesEffect` | src/main.rs:130-132 | a configuration change paired with invalidation is obeyed at the next lookup |
| `SiteLookup.StaleExactly` | src/configuration/mod.rs:634-636 | after an active port is written without invalidation an answer differs from the scan if and only if the stated guard holds |
| `SiteLookup.PortMoveGoesStale` | src/configuration/mod.rs:634-636 | a run in which it does differ |
| `SiteLookup.GlobalState.TryFindSite` | src/main.rs:163-286 | answers from the cache on a live hit, else remote before hosted before container, and caches that answer |
| `SiteLookup.GlobalState.ScanRemotes` | src/main.rs:257-282 | finds the first matching remote site in spite of the substring test in front |
| `SiteLookup.GlobalState.ScanHosted` | src/main.rs:214-254 | finds the first matching site with an active port |
| `SiteLookup.GlobalState.ScanDocker` | src/main.rs:186-212 | finds the first matching container |
| `SiteLookup.FilterMeaning` | src/main.rs:141-161 | a request for a host, with a port or without, matches exactly the name in any letter case, or a dot-separated subdomain of it when allowed, with the subdomain it returns |
| `SiteLookup.PortIsIgnored` | src/main.rs:143-147 | a port in the request changes no match |
| `SiteLookup.RequestHost` | src/main.rs:143-147 | every request is for exactly one host |
| `SiteLookup.HostedAnswer` | src/main.rs:214-254 | a hosted answer is the first matching site with a port above 0, on the loopback address or localhost at that port, with the site's own flags |
| `SiteLookup.RemoteAnswer` | src/main.rs:257-282 | a remote answer is the first matching site, with its own back ends and flags |
| `SiteLookup.DockerAnswer` | src/main.rs:186-212 | a container answer is the first matching container, subdomains included, without terminating TLS |
| `SiteLookup.NoAnswer` | src/main.rs:179-284 | there is no answer if and only if nothing matches and runs |
| `SiteLookup.PreFilterLosesNothing` | src/main.rs:258-261 | whatever the filter matches passes the uppercase substring test |
| `Permits.PermitsConserved` | src/proxy.rs:209-312 | over every run available, in-flight, held, abandoned and panicked permits add up to 200, at most 200 connections are in flight and each rebind abandons at most two |
| `Permits.StepKeepsInv` | src/proxy.rs:59-206 | each step of the loop, a listener or a handler keeps the count and the rebind bookkeeping |
| `Permits.CancelledListenerEnds` | src/proxy.rs:254-283 | until it is replaced a cancelled listener hands off at most one more connection |
| `Permits.ExitEndsListeners` | src/proxy.rs:262-265 | after the exit request each side hands off at most one more connection |
| `Permits.CancelledOnlyByChange` | src/proxy.rs:78-101 | listeners are cancelled only by a change of address, the second once the first has finished |
| `Permits.ListenerFinishesExactly` | src/proxy.rs:256-266 | a listener ends at its check if and only if it is cancelled or the program exits |
| `Permits.FreePermitServes` | src/proxy.rs:268-296 | with a free permit a waiting listener hands a connection on and checks again |
| `Permits.FailedAcceptIsFree` | src/proxy.rs:300-303 | a failed accept costs no permit |
| `Permits.PanicsAreCounted` | src/proxy.rs:292-296 | only a handler that panics keeps its permit |
| `Permits.BoundIsTight` | src/proxy.rs:278-282 | for each number of rebinds up to 100 a run abandons exactly two permits per rebind |
| `Permits.StarvedExactly` | src/proxy.rs:268-275 | no permit can come back if and only if all 200 are lost |
| `Permits.StarvedForever` | src/proxy.rs:268-275 | a starved proxy stays starved whatever happens |
| `Permits.HundredRebindsStarve` | src/proxy.rs:268-312 | without panics starvation takes at least 100 rebinds, and 100 can be enough |
| `Permits.ListenLoop.Poll` | src/proxy.rs:59-206 | a round rebinds on the first time or when an address changed; the plain listener gets the http port, the other one the tls port, each the last one used when absent, and both the configured ip or the initial one |
| `Supervisor.SupervisorSafe` | src/proc_host.rs:214-670 | in every run that loses no live child: at most one live child, spawns only while enabled and with none live, a delete confirmed only with none live and as the last act, the missing-port panic unreachable |
| `Supervisor.RunSafeExactly` | src/proc_host.rs:214-670 | a run is safe in every state if and only if no child is spawned and no deletion is confirmed beside a live child |
| `Supervisor.RunOneChildExactly` | src/proc_host.rs:417-540 | at most one child is live in every state of a run if and only if no spawn succeeds beside a lost child that still lives |
| `Supervisor.OneChildExactly` | src/proc_host.rs:417-540 | the same for one step |
| `Supervisor.StepSafeExactly` | src/proc_host.rs:540-647 | with no live child outside the loop, a step leaves one there if and only if it loses a live child |
| `Supervisor.ReliableLosesNone` | src/proc_host.rs:160-166 | a working stop helper and try_wait never lose a child |
| `Supervisor.FailedStopsAccumulate` | src/proc_host.rs:561-566 | with a failing helper a replaced loop reaches any number of live children |
| `Supervisor.ExitEndsTheLoop` | src/proc_host.rs:241-247 | with the exit flag set the loop ends within ten own steps from any position and spawns at most one more child |
| `Supervisor.RemovalEndsTheLoop` | src/proc_host.rs:221-236 | with the removal mark set the loop ends within eleven own steps from any position and spawns at most one more child |
| `Supervisor.MarkIsRead` | src/proc_host.rs:611-629 | where the mark is read the next step is the last, spawns nothing and leaves nothing alive unless it loses the child |
| `Supervisor.RequestsEndTheLoop` | src/proc_host.rs:241-247 | from any safe state an exit request or a removal mark that loses no child ends the loop with nothing alive |
| `Supervisor.RemovalLeavesNothingAlive` | src/proc_host.rs:611-629 | the same for a mark already set |
| `Supervisor.ExitLeavesNothingAlive` | src/proc_host.rs:540-548 | a shutdown that loses no child ends with the loop done and no child alive |
| `Supervisor.ExitCanStillSpawn` | src/proc_host.rs:311-415 | the bound of one more child is reached: past the exit check the flag is not read before the spawn |
| `Supervisor.RunIsCloser` | src/proc_host.rs:214-670 | with the exit flag or the removal mark set each own step lowers the rank and no other step raises it |
| `Supervisor.DrainIsLastWord` | src/proc_host.rs:256-290 | after a batch the flag is what the last applicable message read sets |
| `Supervisor.DrainUnchanged` | src/proc_host.rs:574-609 | the flag is unchanged when no message applies |
| `Supervisor.DrainEndsAtFirstDelete` | src/proc_host.rs:263-274 | a batch stops at its first matching delete and nowhere else |
| `Supervisor.DrainMessages` | src/proc_host.rs:256-290 | the receive loop computes the drain, with and without a child |
| `Supervisor.MessageMeaning` | src/proc_host.rs:256-290 | what each message does to the flag, by host name, by what precedes its first dot, and by "all" |
| `Supervisor.CommandsTakeEffect` | src/proc_host.rs:574-609 | messages are read in order and once, only where they are drained, and the flag becomes what they make of it |
| `Supervisor.MessagesStayInOrder` | src/proc_host.rs:258 | over every run what waits is the end of what was sent |
| `Supervisor.EnabledSiteStarts` | src/proc_host.rs:308-421 | an enabled site is running after four steps, on the chosen port or the one it had |
| `Supervisor.DisabledSiteWaits` | src/proc_host.rs:292-300 | a site that is not enabled starts over, spawns nothing and is shown as stopped when it has just been disabled |
| `Supervisor.DisabledSiteStops` | src/proc_host.rs:632-647 | a disabled running site has no child after three steps and is back at the top, stopped, after five |
| `Supervisor.DeadChildIsNoticed` | src/proc_host.rs:647-669 | a dead child is noticed, shown as faulty and restarted, or during a shutdown shown as stopped |
| `Supervisor.LiveChildIsKept` | src/proc_host.rs:540-646 | a poll with nothing to do changes nothing and shows running |
| `Supervisor.MissingProgramIsShown` | src/proc_host.rs:342-350 | a missing program is shown as faulty and tried again |
| `Supervisor.MassStartsNeverStartExcluded` | src/proc_host.rs:260-261 | no number of mass starts, however interleaved, starts a stopped excluded site |
| `Supervisor.StatusFollowsLifecycle` | src/proc_host.rs:249-671 | over every run in which nobody else edits the status map, the entry fits the place of the loop and the events follow the life cycle: starting only after stopped, running only after starting, stopping only after running |
| `Supervisor.RunsStayHonest` | src/proc_host.rs:571-647 | a site shown as running has a child or is about to be shown as stopped |
| `Supervisor.SupervisorStaysInStep` | src/proc_host.rs:702-743 | over every run in which no other task changes the entry silently, the entry is that of the last event attempted, or gone by a removal since, and no two neighbouring events are equal unless a removal separates them |
| `Supervisor.ToldUntilRemoved` | src/proc_host.rs:214-671 | over every run in which nobody else edits the map, the last event attempted is the current entry, until the loop ends by removing the entry |
| `Supervisor.DeletionIsUntold` | src/proc_host.rs:576-591 | deleting a site with a child removes the entry and leaves running as the last event |
| `Supervisor.DeletedSiteLooksRunning` | src/proc_host.rs:576-591 | a run from the top of the loop that ends that way |
| `Status.StepInStepExactly` | src/proc_host.rs:702-743 | a step keeps the entry what events and removals together give if and only if it is not a silent write that changes the entry |
| `Status.RunsStayInStep` | src/proc_host.rs:702-743 | over any mix of publications, removals, listings and key presses that change nothing silently, the entry is that of the last event or gone by a removal since |
| `Status.StepToldExactly` | src/proc_host.rs:723-738 | the last event stays the current entry over a step if and only if the step neither writes silently nor removes a present entry |
| `Status.PublishTellsExactly` | src/proc_host.rs:702-743 | after a publication the last event is the entry if and only if it was before or the entry changed |
| `Status.RunsToldExactly` | src/proc_host.rs:702-743 | after a run without silent writes the last event is the entry if and only if there is an entry or there never was an event |
| `Status.SilentEditBreaks` | src/main.rs:877-883 | a key press repeats an event or leaves the entry unannounced, and so does a container listed under the site's name |
| `Status.KeysApply` | src/tui/mod.rs:570-596 | which entries the two keys change, and to what |
| `Status.StatusBoard.UpdateStatus` | src/proc_host.rs:702-743 | the entry changes, an event is attempted exactly when it is new, other sites stay, and the result is the old state when nobody received |
| `Stopper.BudgetsSum` | src/proc_host.rs:59-62 | the three budgets are non-negative and use up the total |
| `Stopper.EscalationIsLastResort` | src/proc_host.rs:64-86 | each later signal is sent only after the previous budget passed and every poll so far found the child alive |
| `Stopper.EverySignalIsRightlySent` | src/proc_host.rs:64-86 | every interrupt is sent at once and before all else, every termination after an interrupt to the same process within one poll of half the total, every kill after a termination within two polls of 85 percent of it |
| `Stopper.SignalsEscalate` | src/proc_host.rs:64-86 | what is sent is a volley of interrupts, then one of terminations, then one of kills, or as many of them as are reached |
| `Stopper.VolleyExact` | src/proc_host.rs:65-66 | a volley reaches the direct children in order and then the process |
| `Stopper.GivesUpExactly` | src/proc_host.rs:88-95 | the helper gives up if and only if the child outlives all its polls, 20 ms apart, including one after the last deadline |
| `Stopper.ResultIsLastPoll` | src/proc_host.rs:64-96 | success means the last poll reaped the child, a time-out that all found it alive for the whole budget, and waiting stays under the budget plus three polls |
| `Stopper.ChildProcess.WaitWithDeadline` | src/proc_host.rs:99-110 | polls and elapsed time are those of the specified wait |
| `Stopper.ChildProcess.GracefulStop` | src/proc_host.rs:25-96 | result, polls, time and signals sent are those of the plan, and every signal is rightly sent |

## Left out

- Tracking.ConnectionTables.AddOrUpdateConnection: one uninterrupted call; interleavings of the same steps are covered by the machine (`Tracking.TablesAgree`).
- Tracking.Next: a mutation or deletion of a key waits for an add in progress on that key; a task that mutates a key before its add has finished is not modelled, nor is the wrap-around of the 64-bit version counter.
- Tracking.Observe: byte counters, packet lists, extra log lines, the open or closed mark of a record and the process lookup by socket are not part of the record; HTTP decoding is an opaque answer carried by the event.
- Tracking.TablesAgree: assumes that no key is added twice or rewritten by a mutator; `Tracking.ReuseBreaksAgreement` shows why.
- Tracking.ConnectionTables.Push: the closed mark that a close event would set is not part of a record; the observer's loop takes closes itself.
- Allocator.AllocationSafe: assumes distinct ids, no configured port 0 and, on sites without a configured port, a PORT text in plain decimal; what happens otherwise in one call is given exactly by `Allocator.CollisionExact`. Probe answers are fixed during one call.
- Allocator.Search: running past port 65535 is reported as an outcome; a build without overflow checks would wrap to port 0 instead.
- Allocator.Next: a reload that adds, removes, renames or changes sites, the loops it starts and stops, and two reloads at once.
- Configuration.ConfigWrapper.IsValid: error texts; the error says which rule failed and lists exactly the repeated names or ports.
- Configuration.ConfigWrapper.AddOrReplaceHostedProcess: the write to disk that follows each of the three upserts.
- SiteLookup.Filter: host names are ASCII, so letter case is folded character by character.
- SiteLookup.GlobalState.TryFindSite: one lookup is one step; a lookup racing with a configuration change or an invalidation is not modelled. `invalidate_cache_for` is not modelled.
- SiteLookup.Container: the back ends a container generates are given with the container.
- Permits.Next: sockets and TLS appear only as bind, accept, hand-off and cancellation; the sleep between two polls and a panicking listener task are left out.
- Permits.ListenLoop.Poll: the addresses only; the tasks and permits are the machine's.
- Status.StatusBoard.UpdateStatus: the map insert and the event are one step; two loops publishing for the same host name at once are not modelled.
- Stopper.ChildProcess.GracefulStop: an idealised clock in which only sleeping takes time, exact arithmetic instead of rounded durations, and a list of direct children given by the caller.
- Supervisor.Next: the loop is a step relation over its program points, so that other tasks can act between any two of them, and not a method updating fields. Left out are waiting times, log streams, environment variables, the `q` written to standard input, process ids in the thread map and the logging settings refreshed from the live configuration. A confirmation that nobody receives counts as sent.
- Supervisor.SupervisorSafe: assumes that no live child is lost, that is, that the stop helper succeeds on a live child and try_wait does not fail. That is sufficient; the exact conditions are `Supervisor.RunSafeExactly` and `Supervisor.RunOneChildExactly`.
- Supervisor.StatusFollowsLifecycle: assumes that what other tasks do leaves the entry as it is; otherwise `Supervisor.RunsStayHonest` and `Supervisor.SupervisorStaysInStep` say what remains.
- Placeholders.ResolutionExactly: the directories are given as texts, each beginning with a character no placeholder holds, as absolute paths and "." do; finding and canonicalising them is left out.
- The fallback and tunnel decisions of the proxy, TLS, HTTP parsers, configuration versions and upgrades, the ACME client, docker calls, self update, the web and terminal interfaces, logging and file access.
