# A verified model of the mesos-m3s scheduling core

mesos-m3s is a Mesos framework that runs a K3S cluster: a datastore, K3S servers and K3S agents, each a Mesos task.
Its scheduling core is a reconciling controller.  It keeps every task in a Redis store, the wanted counts in a small
configuration that is also saved in Redis, and the commands waiting to be launched in a channel; a heartbeat starts
what is missing, CheckState gives fresh tasks their host ports and puts them on the channel, offers launch them,
status updates move them on or remove them, and Scale kills what is too many.

This project models that core and proves what it keeps, over all inputs and over whole runs.

## How the model is built

- `Types`, `Store`: the values (commands, nodes, offers, updates, Mesos calls) and the task part of the store, a list
  of commands in iteration order with one entry per key.  `Sys` is the whole state, with the calls made to Mesos in
  `log` and three more history fields (`sent`, `lost`, `exhausted`) that only the statements use.
- `Nodes`, `Ports`, `Offers`, `Scaling`, `Scheduling`, `Updates`: for each handler a function from the state before to
  the state after, and the facts about single calls.
- `FrameworkProcess`: the class `Framework`.  Its fields are what the source's pointers share (store, saved and current
  configuration, channel, locks, Kubernetes), and its methods are the source's functions with their loops, early
  returns and mutual recursion.  Each is proved to take the object's value, `View()`, exactly where the function of its
  handler says; `Perform` does so for every event and `Drive` for every run of the state machine below.
- `Machine`: the state machine.  An event is one call of a handler with all that comes from outside (time, generated
  IDs, offers, Mesos's answers, Kubernetes' node list, and where a new key lands in the iteration order); a run is
  any sequence of events.
- `Minor`, `Safety`, `Counts`, `Calls`: what each handler keeps.  `Runs`, `Needs`, `Checks`, `Queueing`, `ScalingDown`,
  `Evictions`, `Convergence`, `Edges`, `Orphans`, `Hibernation`, `Health`: the main results (`KindLists`, `OverKill` and
  `Fairness` serve `ScalingDown`).
- `RecordIO`: the line-based reader of the Mesos event stream (Apache Mesos documentation, "RecordIO Data Format").

Assumptions of the model: a handler is one atomic step; generated IDs are UUIDs, so not empty and never used before;
store iteration visits each key once in a stable order, and a new key may appear anywhere in it; the value of a cached
node decodes to an empty command (the source scans those keys too); a Kubernetes Delete takes effect, the node list is
stable and lists each name once, and a node has at most one Ready condition; time is an integer and the zero time is
longer ago than any limit.

Behaviour that is followed as the code has it, whatever one would expect: an offer matches when any one mapped port is
on offer, disk is not looked at, and a command without mappings never matches; an exhausted port search answers 0,
which is then used as the start of the block; the last block may run past the end of the range; on the accept path the
unused offers are declined twice; a failed ACCEPT drops the command; an update about an unknown task is written under
the key ":"; TASK_DROPPED, TASK_UNREACHABLE and TASK_GONE are not treated as final; deleting one node cleans up all
unready ones, so that with u unready nodes u(u+1)/2 kills go out.

Where a property does not hold of the code, the project gives an input and says exactly when it does hold:

- RecordIO delivery: if and only if the records have no newline (`RecordIO.DeliversExactly`).
- "Every stored task carries the current wanted count": a scale request followed by a crash breaks it
  (`Counts.ScaleThenCrash`); over a run it holds throughout if and only if every crash finds the wanted counts of the
  stored kinds saved (`Counts.CrashInstances`, `Runs.RunInstances`).
- "CheckState never leaves fewer than are wanted": it does in the run of `Checks.FreshLostAfterCrash`, and exactly when
  the instance counts of the fresh tasks have too long a chain (`Checks.CheckStateLeavesEnough`).
- "No over-kill", for each kind and from the request on, with CheckState running beside the heartbeats as it does in
  the source: it fails in the run of `ScalingDown.FreshLostAfterScale`, and in every state of a run it holds whatever is
  confirmed if and only if every CheckState was harmless (`ScalingDown.NeverTooFew`).  With the wanted count on every
  task, as it is from the first request or scaling heartbeat on (`ScalingDown.RunMakesCurrent`), harmless means that all
  killed tasks are fresh or no more of the others are than were spared beyond the wanted count
  (`Fairness.HarmlessMeans`).
- The command of an accepted offer survives if and only if Mesos agrees (`Offers.CommandSurvives`), and a stop and a
  start restore the wanted counts if and only if none was zero or they were to be restored anyway
  (`Hibernation.StopThenStart`).
- `Ports.ExhaustedPortsCollide` and `Runs.UnreservedPortCollides` show why the two conditions of port disjointness are
  there.

## Model

| member | source | states |
|---|---|---|
| RecordIO.EventLoop | scheduler/scheduler.go:117-158 | the reading loop, with its skipped short lines, ignored and clamped numbers and early ends, delivers and handles exactly the records of `ReadStream` |
| RecordIO.HeaderRoundTrip | scheduler/scheduler.go:128-129 | a length written in decimal and read back with Atoi is the same length, and its text has no newline |
| RecordIO.ReaderRefinesRecords | scheduler/scheduler.go:126-158 | on the encoding of newline-free records and one more, the line reader does what a reader of whole records would do on the first ones, also when records fail to unmarshal or a handler ends the loop |
| RecordIO.HeldBack | scheduler/scheduler.go:134-148 | when no more bytes are left than were announced, nothing more is delivered however they are split into lines: the last record is held until its successor's header arrives |
| RecordIO.DeliversExactly | scheduler/scheduler.go:126-158 | of n+1 encoded records exactly the first n are delivered, in order, if and only if these contain no newline |
| RecordIO.StreamAnswered | scheduler/scheduler.go:148-192 | on every stream: handled are exactly the delivered records whose verdict says so, in order, a record that does not unmarshal changes nothing, and the loop is stopped exactly by the first record with the verdict Stop, after which nothing is delivered |
| RecordIO.StreamFramed | scheduler/scheduler.go:126-148 | on every stream: each record is the beginning of the first line, after that of its predecessor, that is as long as announced, and the rest of the line announces the next length; the loop ends only when no line is long enough, at a line after a negative length, or by a handler |
| RecordIO.AtoiMeans | scheduler/scheduler.go:128-129 | an announced length is the value of its digits after a sign or none, clamped to 64 bits; other text is 0 unless its leading digits overflow |
| Offers.IsRessourceMatched | mesos/mesos.go:209-248 | the flags of the nested loops come to the closed form: some cpus entry and some mem entry are large enough, and some mapped port lies in some offered range |
| Offers.PortOffered | mesos/mesos.go:223-243 | the two inner loops find a port exactly when some mapped port lies in some range of the resource |
| Offers.MatchIgnoresOrder | mesos/mesos.go:209-248 | the test depends only on which entries the resource list has, not on their order or number |
| Offers.OffersConserved | scheduler/handle_offers.go:93-164 | with proper offers and a valid command: none suits, then all are declined and the command goes back; else the first suitable one is accepted, exactly the others are declined, none is both, and the command has left the channel |
| Offers.CommandSurvives | scheduler/handle_offers.go:149-153 | the command is back in the channel or agreed to be launched if and only if the ACCEPT was agreed to or no offer suited: a refused ACCEPT loses it |
| Offers.OffersAnswered | scheduler/handle_offers.go:93-164 | whatever is queued: with nothing queued all offers are declined in one call and nothing else changes; with a proper command each offer is either declined or, exactly if it is the first that fits by host, memory, processors and one port, accepted for that command; a malformed command is dropped and leaves the offers unanswered |
| Offers.MalformedOffer | scheduler/handle_offers.go:60-79 | an offer without host or ID that is the first to fit is not taken: the command goes back and the offers are declined, but for those without an ID if it had a host |
| Offers.LaunchClaims | scheduler/prepare.go:13-59 | a launch claims in all exactly the processors, memory and disk the command needs, one single-port range for each mapping, and nothing else |
| Ports.SearchFinds | scheduler/scheduler.go:197-217 | the search answers the first free block start strictly inside the range, and 0 exactly when there is none |
| Ports.BlockMeans | scheduler/scheduler.go:197-245 | a block is free when no discovery record lists any of its ports, counted in 32-bit arithmetic |
| Ports.DynamicPort | scheduler/scheduler.go:270-287 | the i-th port left to the framework becomes the matching port of the found block, which no record lists |
| Ports.PromotionAssigns | scheduler/heatbeat.go:105-107 | a successful search gives a fresh task distinct unused ports between the start of the range and the end of the last block, with mappings and discovery record in agreement |
| Ports.SearchSucceeds | scheduler/scheduler.go:197-217 | with fewer recorded ports than an n-th of the range a search for n ports cannot fail |
| Ports.ExhaustedPortsCollide | scheduler/scheduler.go:216-216 | any two agents promoted from an exhausted range, with or without the TCP port, get the ports 0, 1 and on, and so collide |
| Nodes.KillOrderLength | controller/controller.go:138-162 | cleanup kills u(u+1)/2 times for u unready nodes |
| Nodes.KillOrderTimes | controller/controller.go:138-162 | the i-th unready node is killed for exactly i times |
| Nodes.CleanupKills | controller/controller.go:151-157 | the calls of a cleanup are one kill for each of a list of nodes in which the i-th unready node of the listing occurs exactly i times and no ready one; each kills the stored agent whose ID the node carries in its label or else its annotation, at that task's agent, or else such a server, and names no task only if there is neither |
| Nodes.DeletedEffect | controller/controller.go:209-212 | deleting a node takes it and every unready node out of the cluster, drops the keys of the unready ones, and keeps all others |
| Nodes.DeletedKills | controller/controller.go:151-157 | the only calls of a deletion are kills for unready nodes other than the deleted one, each of the task the node belongs to |
| Nodes.NodeOfFirst | controller/controller.go:324-345 | a task's node is the first cached one that carries its ID, in the label or else in the annotation, and the empty node if there is none |
| Nodes.TaskOfNodeMeans | controller/controller.go:303-321 | a node's task is the stored one of the kind with the ID it carries, and the empty task if there is none |
| Nodes.CleanupEffect | controller/controller.go:138-162 | after cleanup no unready node is in the cluster or in the cache, every ready node and other cached node still is, and u(u+1)/2 kills were sent and nothing else |
| Nodes.CleanupTwice | controller/controller.go:138-162 | a second cleanup does nothing |
| Scaling.ScaleCallsClosed | api/V0ScaleServer.go:64-85 | over n tasks: kills for the first min(n, max(0, old - new)), then max(0, n - max(0, old - new + 1)) revives |
| Scaling.ScaleArithmetic | api/V0ScaleServer.go:53-88 | the calls of one Scale are these over the tasks of its kind in iteration order; their instance counts become the new count and nothing else in the store changes; the configuration is saved first |
| Evictions.ScaleEvicts | api/V0ScaleServer.go:73-80 | for each agent that a Scale kills, the cached node that carries its ID is in the cluster no more; a ready node that belongs to none of them stays; without such nodes all stay; scaling servers or the datastore touches no node |
| FrameworkProcess.Framework.CountRedisKey | redis/redis.go:120-142 | the counting loop gives the number of stored tasks of the kind |
| FrameworkProcess.Framework.GetTaskFromEvent | redis/redis.go:78-97 | the first stored task with the update's ID, with the reported state, or the empty command |
| FrameworkProcess.Framework.GetTaskFromK8Node | controller/controller.go:303-321 | the loop over the keys of a kind equals one direct lookup by the node's task ID |
| FrameworkProcess.Framework.GetK8NodeFromTask | controller/controller.go:324-345 | the first cached node that carries the ID in its label, or else in its annotation |
| FrameworkProcess.Framework.CleanupNodes | controller/controller.go:138-162 | terminates although it and DeleteNode call each other, and leaves the state `Cleaned` describes in closed form, about which CleanupEffect and CleanupKills state the effect |
| FrameworkProcess.Framework.RemoveUnreadyNode | controller/controller.go:151-157 | one unready node: deleted with all the cleanup this sets off, its key dropped, and a kill for its agent, or else its server |
| FrameworkProcess.Framework.DeleteNode | controller/controller.go:209-212 | the node is gone and the cluster cleaned up |
| FrameworkProcess.Framework.PortInUse | scheduler/scheduler.go:220-245 | true exactly when some stored discovery record lists the port |
| FrameworkProcess.Framework.GetRandomHostPort | scheduler/scheduler.go:197-217 | the loops over starts and block ports compute the first-fit search |
| FrameworkProcess.Framework.ChangeDockerPorts | scheduler/scheduler.go:270-280 | each mapping with host port 0 gets its port of the found block, the others keep theirs |
| FrameworkProcess.Framework.ChangeDiscoveryInfo | scheduler/scheduler.go:282-287 | the discovery record takes the host ports of the mappings, one by one |
| FrameworkProcess.Framework.CheckState | scheduler/heatbeat.go:79-122 | the loop over the changing store leaves the state `CheckedFrom`, about which Checks and Queueing state the effect |
| FrameworkProcess.Framework.Schedule | scheduler/heatbeat.go:97-112 | one task is revived for, promoted, sent and stored, in that order |
| FrameworkProcess.Framework.Heartbeat | scheduler/heatbeat.go:13-76 | health checks, locks, start order and suppression leave the state `HeartbeatDone` |
| FrameworkProcess.Framework.Settle | scheduler/heatbeat.go:67-75 | a suppress and a sweep unless suppressed already; the locks say so |
| FrameworkProcess.Framework.StartMissing | scheduler/heatbeat.go:52-65 | datastore first, server once the datastore runs, agents once the server is healthy |
| FrameworkProcess.Framework.StartTask | scheduler/agent.go:17-200 | one new fresh task below the wanted count, nothing at it, Scale above it (the datastore does nothing) |
| FrameworkProcess.Framework.NewCommand | scheduler/agent.go:28-123 | filled in field by field, the new command of each kind has its needs, its key, the wanted count, and as many ports as its kind asks for, 0 but for the API server's |
| FrameworkProcess.Framework.GetDiscoveryInfoPorts | scheduler/agent.go:203-224 | the record lists exactly the host ports of the mappings, in order |
| FrameworkProcess.Framework.HealthCheckDatastore | scheduler/datastore.go:92-108 | true exactly when some datastore task is running and has a network |
| FrameworkProcess.Framework.HealthCheckNode | scheduler/server.go:298-338 | the loop's answer is `NodesHealthy` and its effect `HealthChecked`, about which Health states the meaning |
| FrameworkProcess.Framework.CleanupUnreadyTask | scheduler/server.go:341-351 | after the cleanup time an unlaunched task is forgotten and a launched one killed, before it nothing happens |
| FrameworkProcess.Framework.RemoveNotExistingAgents | scheduler/agent.go:233-256 | the loop over the changing cache leaves the state `SweptFrom`, about which Health states the effect |
| FrameworkProcess.Framework.GetAllOfferIDs | scheduler/handle_offers.go:10-17 | the IDs of the offers, in order |
| FrameworkProcess.Framework.RemoveOffer | scheduler/handle_offers.go:82-90 | every occurrence of the ID is gone and the others keep their order |
| FrameworkProcess.Framework.DefaultResources | scheduler/prepare.go:13-59 | the loop gives the claims of a launch: processors, memory, disk, and one single-port range for each mapping |
| FrameworkProcess.Framework.GetOffer | scheduler/handle_offers.go:20-79 | the first offer that passes the host constraint and the resource test; exactly the rest is declined |
| FrameworkProcess.Framework.HandleOffers | scheduler/handle_offers.go:93-164 | dequeue, requeue, accept and decline leave the state `OffersHandled`, about which OffersAnswered states the effect; false is answered exactly after a refused ACCEPT |
| FrameworkProcess.Framework.HandleUpdate | scheduler/handle_update.go:10-69 | the state `UpdateHandled`, for known and unknown tasks and every status, about which Orphans states the effect |
| FrameworkProcess.Framework.Record | scheduler/handle_update.go:34-67 | a final status forgets the task and its node, TASK_RUNNING stores where it runs, any other status is stored |
| FrameworkProcess.Framework.ForgetNodes | scheduler/handle_update.go:39-49 | the state `NodesForgotten`, about which NodeForgotten states the effect |
| FrameworkProcess.Framework.Scale | api/V0ScaleServer.go:53-88 | the loop with its falling old count leaves the state `Scaled` and returns the difference |
| FrameworkProcess.Framework.ClusterStop | api/V0ClusterShutdown.go:29-50 | remember, save, scale to zero, save, suppress |
| FrameworkProcess.Framework.V0ClusterStart | api/V0ClusterStart.go:12-29 | refused, and nothing changed, exactly when no wanted count is zero |
| FrameworkProcess.Framework.CacheNode | controller/reconcile.go:41-45 | the node is cached under its name, in place or anywhere in the order if its key is new, and every other key keeps its node |
| FrameworkProcess.CachePutDistinct | controller/reconcile.go:44-45 | caching a node replaces the one of its name and keeps all others |
| FrameworkProcess.Framework.Perform | scheduler/scheduler.go:162-192 | every event takes the object where the state machine goes, and keeps its keys distinct |
| FrameworkProcess.Framework.Drive | scheduler/scheduler.go:134-194 | so does every sequence of events |
| FrameworkProcess.Framework.constructor | app.go:38-185 | a first start over an empty store sets up a valid object in a booted state, its configuration saved |
| FrameworkProcess.Framework.Live | app.go:38-185 | after any run of such an object its own fields show no ID sent, queued or launched twice, conservation of commands, and a store in order |
| Safety.LaunchClaimsMappings | scheduler/prepare.go:40-56 | the ports a launch claims are exactly the mapped host ports, in order |
| Safety.StepSafe | scheduler/heatbeat.go:79-122 | every handler keeps the life-cycle, carried-ports and port invariants |
| Safety.RunSafe | scheduler/heatbeat.go:79-122 | the invariants hold in every state of every run |
| Runs.NoDoubleLaunch | scheduler/heatbeat.go:96-112 | over every run each ID is sent at most once, is in the channel at most once and in at most one ACCEPT, and an ID still in the channel is in none |
| Runs.CommandsConserved | scheduler/handle_offers.go:96-149 | over every run what was sent is what is queued, was in an ACCEPT, or was lost with the channel in a crash, as multisets; no queued command is one HandleOffers would drop |
| Needs.RunConfigured | scheduler/prepare.go:13-38 | over every run, crashes included, each stored or queued task has the processors, memory and disk configured for its kind, and each ACCEPT claims in all what is configured for some kind |
| Runs.StoreInOrder | redis/redis.go:186-189 | over every run each stored task is the only one with its ID, so under its own key, is named, and its discovery record equals its mappings, even after an exhausted search |
| Runs.PortsDisjoint | scheduler/scheduler.go:197-287 | in every reachable state without an exhausted search and with a reserved server port: the dynamic ports of a scheduled task are in no other task's mappings or record, lie between the start of the range and the end of the last block, and its mappings equal its record |
| Runs.PortsDisjointWithRoom | scheduler/scheduler.go:197-217 | with nine ports of the range for each task that may be asked for, no search is ever exhausted and disjointness holds outright |
| Runs.PortsClaimedAreMapped | scheduler/prepare.go:40-56 | over every run the ports queued for a stored task and claimed at its launch are its mappings |
| Runs.UnreservedPortCollides | scheduler/server.go:108-108 | if the search finds the configured server port, the agent that gets it and the next server collide |
| Counts.StepCurrent | api/V0ScaleServer.go:64-68 | every step but a crash keeps the instance counts of each kind equal to its wanted count, kind by kind |
| Counts.StepInstances | api/V0ScaleServer.go:64-68 | so it keeps every stored task's instance count current |
| Counts.CrashInstances | app.go:94-116 | a crash keeps it if and only if for every kind with a stored task the saved wanted count is the current one |
| Counts.ScaleThenCrash | api/V0ScaleServer.go:47-59 | a crash right after a scale request keeps it if and only if no task of the kind is stored or the request changed nothing: the old count was saved, the new one is on the tasks |
| Runs.RunInstances | scheduler/agent.go:93-93 | over every run, the instance counts are the wanted counts in every state if and only if every crash of the run finds the wanted counts of the stored kinds saved |
| Runs.RunCurrent | scheduler/agent.go:93-93 | over every run without a crash, a kind that starts current stays current |
| Counts.StepWithin | scheduler/agent.go:19-28 | counts, wanted counts and counts to restore, current and saved, stay within any bound that no request exceeds |
| Runs.RunCounts | scheduler/agent.go:19-28 | over every run in which the wanted counts stay what they are, crashes and requests included, a kind never has more tasks than the larger of its starting and its wanted count |
| Runs.RunGone | scheduler/handle_update.go:36-38 | a forgotten ID is never stored again |
| Checks.CheckStateFate | scheduler/heatbeat.go:79-122 | in every safe state, whatever the instance counts: after CheckState nothing is fresh, other tasks are untouched, a surplus fresh task is dropped unsent, and each other fresh one is stored as new and sent exactly once |
| Queueing.CheckStateQueues | scheduler/heatbeat.go:96-112 | CheckState at `now` puts on the channel and stores as the same command each fresh task that is not surplus, new, dated `now`, with the host ports it had and others for the rest, and a record that agrees; with each it sends one REVIVE, and nothing changes but the store |
| Queueing.QueuedStays | scheduler/server.go:298-351 | no health check before `now` and the cleanup time forgets or kills a task queued at `now` |
| Queueing.YoungStays | scheduler/server.go:341-351 | in any state, the health checks of a heartbeat leave a task alone until the cleanup time has passed since its date |
| Queueing.CheckedKeeps | scheduler/heatbeat.go:79-122 | in any store CheckState leaves alone what is not fresh, has no ID or no name, and forgets nothing that has a date |
| Checks.CheckStateCounts | scheduler/heatbeat.go:96-120 | in every safe state each kind is left with its count less the tasks dropped |
| Checks.CheckedKind | scheduler/heatbeat.go:79-122 | of a kind, the loop leaves exactly the tasks it keeps, in their order |
| Checks.CheckStateLeavesEnough | scheduler/heatbeat.go:96-120 | it leaves no fewer than the smaller of count and wanted count if and only if the kind's fresh tasks have no chain, each wanting fewer instances than are left after the ones before it, longer than there are too many |
| Checks.ChainIffDropped | scheduler/heatbeat.go:96-120 | there is a chain of a length exactly when at least that many are dropped |
| Checks.FreshWantEnough | scheduler/heatbeat.go:96-120 | there is no such chain when no fresh task wants fewer instances than are wanted |
| Checks.SurplusCurrent | scheduler/heatbeat.go:96-96 | with the wanted count on every task of a kind, the surplus ones are the first fresh ones, as many as there are too many |
| Checks.CheckStateCountsCurrent | scheduler/heatbeat.go:96-120 | then a kind with C tasks, F of them fresh, is left with the larger of C - F and the smaller of C and the wanted count |
| Checks.FreshLostAfterCrash | app.go:94-116 | a safe state, a scale request, a crash and a CheckState that leave one agent while two are wanted |
| OverKill.ScaleKillsFront | api/V0ScaleServer.go:73-84 | one Scale adds to the tasks it has killed exactly the front of the iteration order that is too many |
| OverKill.HeartbeatKills | scheduler/server.go:19-26 | for each kind: a heartbeat with no fewer tasks than wanted, none of which its health checks give up, stores the same ones after it, and kills through Scale exactly the front that is too many if it runs Scale again for the kind, none of the kind otherwise |
| OverKill.QuietStep | scheduler/heatbeat.go:117-120 | every other step that asks for nothing takes from a kind exactly the tasks reported gone and those dropped, and Scale kills none |
| Fairness.RequestSpares | api/V0ScaleServer.go:47-88 | right after a request for m, no more than were wanted: those killed stand in front of all others, at least m are spared, exactly m if there were no more stored than wanted, and every task of the kind carries the new count |
| Fairness.SparingChecked | scheduler/heatbeat.go:96-120 | a CheckState keeps the killed ones in front, and leaves at least as many spared as are wanted if and only if it is harmless: among the spared no chain of fresh tasks is longer than more are spared than wanted |
| Fairness.HarmlessMeans | scheduler/heatbeat.go:96-120 | with the wanted count on every task of the kind, that is when all killed tasks are fresh or no more of the others are fresh than were spared beyond the wanted count |
| Fairness.MostlyHarmless | scheduler/heatbeat.go:96-120 | CheckState is harmless if no task of the kind is fresh, whatever they want, and if none is killed and each carries the wanted count |
| ScalingDown.WhoIsLeft | scheduler/agent.go:19-26 | for each kind, with n stored at the start and m wanted in the end, over every interleaving of heartbeats, requests for fewer, updates for killed tasks, CheckStates and other steps: the tasks stored are those of the start, in order, but for the ones gone and dropped; Scale has killed none but the first n - m; none is gone that was not killed or dropped; and all that are too many are killed once Scale was run for them |
| ScalingDown.NoOverKill | api/V0ScaleServer.go:47-88 | over every such run, the requests that start it included: in every state Scale spares as many tasks as are wanted, exactly as many once it was run for all that are too many, if and only if every CheckState was harmless |
| ScalingDown.KillsExactly | api/V0ScaleServer.go:73-84 | while no CheckState drops one of the last m: these stay stored, all of the first n - m are killed or dropped once Scale was run for all that are too many, and the count is m exactly when all of them are gone or dropped, and more before |
| ScalingDown.NeverTooFew | scheduler/heatbeat.go:125-134 | whichever of Scale's kills are confirmed in any state of such a run, no fewer tasks are left than are wanted, if and only if every CheckState of the run was harmless |
| ScalingDown.EnoughIffSpared | api/V0ScaleServer.go:73-84 | in every safe state: no fewer than wanted are left whichever kills are confirmed exactly when no fewer are spared |
| ScalingDown.RequestEnough | api/V0ScaleServer.go:73-84 | after a request for m from whatever state with as many stored as wanted, Scale spares at most m, and m exactly when it had killed none of the last m before |
| ScalingDown.RunMakesCurrent | api/V0ScaleServer.go:68-71 | over every such run the tasks of the kind carry the wanted count from the first request or scaling heartbeat on |
| ScalingDown.FreshLostAfterScale | scheduler/heatbeat.go:117-120 | a safe state of three agents, a request for two, a CheckState and one confirmed kill that leave one agent: such a run, whose CheckState is not harmless |
| Convergence.HeartbeatAdds | scheduler/heatbeat.go:50-65 | for each kind whose turn it is in the start order (datastore unhealthy; datastore healthy; server healthy) a heartbeat adds one task below the wanted count and none at or above it, even when its health check gives one up |
| Convergence.HeartbeatWaits | scheduler/heatbeat.go:52-65 | out of its turn a kind gets no task from a heartbeat |
| Convergence.StartedTask | scheduler/agent.go:28-123 | what is started below the wanted count is one fresh undated task with its ID, the wanted count, the configured needs of its kind, and the ports of its kind |
| Convergence.RunConverges | scheduler/heatbeat.go:28-65 | for each kind: from c of M wanted tasks, each carrying that count, after k heartbeats in the kind's turn, with CheckStates, offers and updates in between but no task reported gone, there are exactly min(M, c + k) |
| Edges.HeartbeatEdge | scheduler/heatbeat.go:44-75 | a heartbeat makes its own call exactly when its observation differs from the last one, and its locks record the observation |
| Edges.HeartbeatSettles | scheduler/heatbeat.go:67-75 | a heartbeat that finds the framework settled changes nothing if it had found so before; else it sends one SUPPRESS and sweeps: stray agent nodes leave the cache and silent agents are killed |
| Edges.ObservedMeans | scheduler/heatbeat.go:14-46 | settled means: nothing is wanted, or a datastore task runs with a network and both servers and agents are healthy |
| Edges.RunEdges | scheduler/heatbeat.go:125-134 | over every run one lock is the negation of the other, and the heartbeat's own calls are exactly the changes in what it observed |
| Edges.Alternate | scheduler/heatbeat.go:67-75 | between resets these calls strictly alternate, starting with SUPPRESS |
| Calls.UpdateCalls | scheduler/handle_update.go:26-32 | on every path one acknowledgement if and only if there is a UUID, one kill if and only if the task is unknown and not TASK_LOST, and no other call but node cleanup's |
| Orphans.RunAcks | mesos/mesos.go:88-92 | over every run the acknowledgements are exactly one for each update with a UUID, in order |
| Orphans.UnknownUpdate | scheduler/handle_update.go:22-32 | an update about an unknown task kills it unless it is TASK_LOST, writes the entry under the empty key, or drops it if final, and changes no stored task, count, node or configuration |
| Orphans.KnownUpdate | scheduler/handle_update.go:34-67 | an update about a stored task removes it if final and else sets its state, and touches no other |
| Orphans.UpdateStores | scheduler/handle_update.go:34-67 | in full: one of the five final statuses removes that task; any other one stores the status, and TASK_RUNNING where the task runs, and the API server's port if it is a server; nothing else changes but nodes, and it is acknowledged |
| Orphans.NodeForgotten | scheduler/handle_update.go:39-49 | a final update of an agent takes its node, the first cached one that carries its ID, and every unready node out of the cluster and the cache and keeps every other; of a server, its node's key alone; of a datastore, nothing |
| Orphans.OrphanKilled | scheduler/handle_update.go:25-32 | once the store does not know a task, each later update about it but TASK_LOST, after any run, sends exactly one kill |
| Hibernation.StopIsEffects | api/V0ClusterShutdown.go:29-50 | stopping has exactly this sequence of single effects on the configuration and its saved copy |
| Calls.StopSuppresses | api/V0ClusterShutdown.go:42-50 | a stop ends with one SUPPRESS of its own, its configuration saved |
| Hibernation.StartIsEffects | api/V0ClusterStart.go:31-36 | so has starting |
| Hibernation.CrashSafeHibernation | api/V0ClusterShutdown.go:33-47 | if no wanted count is zero and a stop reaches its first save, then whatever follows (crashes anywhere in further stops and starts, saves), a start ends with exactly the original triple |
| Hibernation.CutBeforeSave | api/V0ClusterShutdown.go:33-40 | a stop that dies before its first save leaves only what was saved |
| Hibernation.StopThenStart | api/V0ClusterShutdown.go:34-38 | without a crash the triple comes back if and only if no wanted count was zero or the counts to restore were the wanted ones |
| Hibernation.HibernationOverRuns | api/V0ClusterStart.go:20-36 | the same over whole runs, with every other event but scale requests in between and crashes between events or inside stops and starts |
| Hibernation.StopPassesThrough | api/V0ClusterShutdown.go:42-46 | a stop does pass through states from which such a crash starts: those between its scalings |
| Health.InspectFinds | scheduler/server.go:308-335 | the walk over the tasks stops at the first faulty one, or else tells whether some node is ready |
| Health.HealthyMeans | scheduler/server.go:298-338 | true exactly when the count is right, every task has a named cached node, none is unready past the timeout, and some node is ready |
| Health.HealthCheckCleansOne | scheduler/server.go:321-333 | it acts exactly when the count is right and a first faulty task is overdue, on that task alone, and not at all when it answers true |
| Health.AgentNamedIs | scheduler/agent.go:233-240 | the nodes swept are those whose name has "agent" in it |
| Health.SweptFromEffect | scheduler/agent.go:233-256 | a sweep drops exactly the cached agent nodes without a task and kills exactly the running agents whose node is silent, in order |
| Health.SweepKeepsMapped | scheduler/agent.go:243-254 | afterwards every cached agent node belongs to a stored agent task, and no node that has one was dropped |

## Left out

- Goroutine interleavings: heartbeat and CheckState run as goroutines in the source; here each handler is one step.
- The channel's capacity of 100: a send never blocks in the model, so the deadlock of a full channel is not captured.
- A missing Kubernetes client: DeleteNode fails on it in the source; here the client always exists and `kubeUp` only says whether listing works.
- Errors of Redis and of Mesos calls other than ACCEPT: they are logged and ignored by the source.
- `serverAndAgentStop`, `agentStop`, ServerRestart, AgentRestart and ClusterRestart: more sequences of the modelled scale calls, some with a polling loop that waits for the counts to reach zero.
- The subscription's own CheckState and reconcile calls: the first is a separate event, the second changes no state of the model.
- K3SServerHostname, K3SServerURL and cordoning of nodes: no modelled behaviour depends on them.
- Container details (images, arguments, environment, volumes, protocols) and the rest of a task's fields; protocol strings are rewritten by getDiscoveryInfoPorts without touching a port number.
- Adjusting resources over the API: CPU, memory and disk of new tasks are settings.
- HTTP, TLS, authentication and JSON or protobuf encoding; unmarshalling of a record is a parameter of RecordIO.EventLoop.
- The SCAN cursor's guarantees: iteration is a fixed order in which new keys may appear anywhere.
- RecordIO.EventLoop: the stream is the whole input, read without blocking, and what a handler makes of a record is a function of the records so far.
- ScalingDown.NoOverKill: a run (also in WhoIsLeft, KillsExactly and NeverTooFew) ends before a heartbeat that finds fewer tasks than wanted or gives one up at the wanted count; Convergence.HeartbeatAdds says what it starts then.
- ScalingDown.NeverTooFew: requests for more and the start of a stopped cluster are not part of these runs, since fewer are stored than wanted right after them; a task started then may be stored in front of killed ones, and ScalingDown.RequestEnough says what the next request for fewer does.
- FrameworkProcess.Framework.ForgetNodes: does not model SetUnschedule, which marks the cached agent nodes unschedulable in Kubernetes; no modelled behaviour depends on that mark.
- Hibernation.HibernationOverRuns: a crash inside a stop or a start may leave the store in any state that only rewrote or dropped tasks; the rounds inside one scaling are not spelled out.
- Ports.SearchSucceeds: stated for at most three ports, the most the source ever asks for; so are the other port results.
