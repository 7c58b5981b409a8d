# Ambud, modelled and proved in Dafny

Ambud is a small cluster manager. A control plane keeps desired state in PostgreSQL; on every
machine an agent sends heartbeats, receives the list of workloads its node should run, and
drives containerd towards it. This project models the parts that carry the system's promises
and proves what they keep, alone and together.

| file | what it holds |
|---|---|
| `Types.dfy` | identifiers, digests, port mappings, statuses, small sequence lemmas |
| `Store.dfy` | the four tables and the store's transactions, one SQL statement at a time, any number in flight |
| `StoreProofs.dfy` | what every statement keeps; serializability; tokens and nodes; the tables only grow |
| `StoreProgress.dfy` | exactly when a request's statements run through to its commit, whatever else is in flight |
| `StoreHistory.dfy` | every answer explained by the successes before it, and what each statement writes |
| `StoreAnswers.dfy` | what the answers mean for those who ask again or read in several steps |
| `ControlPlane.dfy` | the API handlers: heartbeat, listing with the batched port query, target resolution |
| `Runtime.dfy` | the class `Containerd`: Run and Stop over four resources per name, with every call able to fail |
| `StopTask.dfy` | SIGTERM, grace period, SIGKILL, deletion |
| `Fake.dfy` | the class `Fake`, and Containerd's refinement of it |
| `Reconcile.dfy`, `Agent.dfy` | the reconcile loop, what failing rounds leave, one heartbeat, and the convergence of two |
| `ContainerApi.dfy` | restarting a container through the agent's own API |
| `Cluster.dfy`, `ClusterSafety.dfy` | all of it as one distributed state machine, and its safety over every run |
| `ClusterActions.dfy` | what each action does and sends, said of machines, files and messages |
| `ClusterProgress.dfy` | where replies come from, and the convergence of a round in the middle of everything else |
| `ClusterLoops.dfy` | the reconcile loop and the heartbeat handler, taken apart into actions, are those loops |
| `ClusterColumns.dfy` | whose reports the observed columns show, and when that is what the runtime says |
| `ClusterTokens.dfy`, `ClusterPorts.dfy` | one node per join token, and requested ports on the machine, over whole runs |
| `ClusterWitness.dfy` | a run that joins, deploys and starts, so that the safety statement is not about an idle system |
| `PortConversions.dfy`, `PortPipeline.dfy` | the port converters, and a mapping's whole way from the command line to CNI |
| `Text.dfy`, `PortText.dfy`, `ImageName.dfy` | the port notation and the default container name |

Code that works on values is functions and lemmas. Code that changes things is methods and
classes (`Containerd`, `Fake`, `Server`) whose contracts tie the new state to a function of the
old one; the lemmas are about those functions. Everything the environment decides, such as which
call fails, when a process exits or which message arrives, is an argument, so each statement
holds for all of it.

The heart of the store model is one notion, the *claim*: a lock on a token row, a value of a
unique column, a generated identifier or secret. A transaction in flight owns the claims of its
lock and its uncommitted rows; an insert fails on a committed claim and waits for another
transaction's. Two transactions never own the same claim, and none owns a committed one. From
that invariant follows that every interleaved run is a serial one.

## What is assumed of the environment

- The hash of a secret is injective; fresh tokens, credentials and UUIDs are new.
- PostgreSQL reads committed rows only, blocks a unique-key insert on another transaction's
  uncommitted row and `FOR UPDATE` on a held row lock, and rolls back on error. An abort can
  happen at any statement. Unique violations are reported before foreign-key violations.
- `NewContainer` is atomic; containerd refuses to delete a container that has a task; a failed
  CNI setup leaves no attachment for that id; removing something missing succeeds (DEL in
  section 2, Execution Protocol, of the CNI Specification 1.0.0); the ports label reads back as
  written.
- A call that reports an error has done nothing: a pull, a namespace, a record, a deletion that
  fails is as if it had not been tried, and a task whose start fails has no process.
- The exit channel of a task delivers an exit only when the process has exited. It may deliver a
  status that carries an error instead, which `internal/runtime/containerd.go:234-241` takes for an
  exit; containerd then refuses to delete a task that still runs. A Stop that waits for ever counts
  as one that fails and keeps the task.
- Runtime calls on one machine do not overlap. An agent killed between two calls of `Run` or `Stop`
  leaves the host as a call that fails there and whose cleanup calls fail too; that there is such a
  pattern between any two calls is proved (`KilledRunIsAFault`, `KilledStopIsAFault`), so killing an
  agent inside a call is that call followed by `KillAgent`.
- The credential file survives; only the agent writes it. Messages may be delayed, repeated,
  reordered and lost, and are not forged.
- In the cluster theorem only the reconcile loop calls Run and Stop.

## Where the code does less than it says

- `Run` undoes a failed start with calls whose errors it ignores. Even when they all succeed, the
  host is restored exactly only if no attachment or task was left over without its record
  (`RestorationExact`); a leftover attachment can even be replaced (`LeakedAttachmentFate`). On a
  name without record, Run leaves an orphan exactly when its fault pattern `Leaks`, and blocks the
  name for good exactly when the namespace is among what leaks (`RunOrphansExactly`,
  `OrphanNamespaceBlocksForever`; `UntidyRunCanOrphan` is one such pattern). Of the
  past, convergence therefore asks only that no Run has leaked.
- A failed `Run` is invisible in terms of the `Fake`, or else it has left its record behind; that is
  the exact condition for the refinement (`RunRefinesExactly`, `ContainerdRefinesFake`).
- `Run` promises an already-exists error. It gives it exactly when a record has lost its namespace
  (`AlreadyExistsExactly`); a second Run of a started name fails without it (`RunTwice`), and no
  Run ever gives it unless an earlier Stop failed in its last step or a Run in its cleanup
  (`AlreadyExistsNeedsHalfRelease`).
- A round that acts on a listing taken before the exchange can stop a container that was not yet
  running then. The desired names not running drop by the number of successful starts for every
  pattern of errors exactly when no such container has come up (`ReconcileCountsExactly`,
  `ComingUpBreaksTheCount`).
- The comment in `internal/controlplane/api/heartbeat.go:86` says that ports were validated to be
  1 to 65535. No such check exists on that path: ports are in that range exactly when the requested
  ones are, and 0 is stored (`StoredPortsProperIff`, `PortZeroIsStored`). What makes the narrowing
  lossless is that every port entered as `uint16` (`NarrowingLossless`, `PortListFits`).
- A reply is said to be the exact state to reconcile to; the loop compares names and running state
  only. After a fault-free round a container has the desired image and ports exactly when it was not
  running before or had them already (`RecordAfterRound`).
- A restart through the agent's API is a Stop and a Run. If exactly the Run fails and cleans up, the
  container is lost with its image and ports, and trying again, however often, answers not-found
  (`RestartExactly`, `RestartCanLose`, `LostIsNotFound`).
- A commit may succeed while its acknowledgement is lost, so "leaves the tables as they were" holds
  of transactions that did not commit, not of requests that saw an error. Asking again is safe:
  nothing more is committed and the definite answer is already-exists
  (`RepeatedDeployIsRefused`, `RepeatedRegisterIsRefused`).
- The observed columns can go stale by an older heartbeat that is handled late; they are right
  exactly as long as nothing else was the last write (`CurrentExactly`, `LateReportMisleads`).

## Model

| member | source | states |
|---|---|---|
| StoreProofs.StepKeepsInv | internal/controlplane/store/migrations/0001_initial.up.sql:6-50 | every statement of every transaction, blocked or failing ones included, keeps the schema's constraints and the exclusiveness of locks and uncommitted keys |
| StoreProofs.StepIsSerial | internal/controlplane/store/workloads.go:46-92 | each statement either leaves the tables alone or makes final the very outcome, success or error, that the request would have running alone at that moment |
| StoreProofs.RunIsSerial | internal/controlplane/store/nodes.go:75-127 | serializability: the tables after any interleaved run are those of its outcomes executed one after the other, each outcome right at its place |
| StoreHistory.AnswersFollowHistory | internal/controlplane/store/nodes.go:87-112 | over every run every answer is the one the earlier successes call for, without mention of tables: not-found exactly for a token never created, already-exists for one used before or a name given before; a deploy is refused exactly for a name deployed before, a node that never registered, or a host port and protocol asked for twice or by an earlier deploy to that node, with the error for each |
| StoreHistory.TablesFollowHistory | internal/controlplane/store/migrations/0001_initial.up.sql:6-50 | in every reachable state the tables hold exactly the tokens, nodes, names and host ports that earlier successes established |
| StoreHistory.RefusalsExplained | internal/controlplane/store/workloads.go:59-86 | the error of each refused statement, by the rows it found, and that it leaves only its transaction rolled back |
| StoreHistory.AbortUndoes | internal/controlplane/store/workloads.go:46-52 | an abort takes back all of its transaction and nothing else |
| StoreHistory.RegisterWrites | internal/controlplane/store/nodes.go:102-121 | a committed registration adds exactly its node, field by field, and marks exactly its token |
| StoreHistory.DeployWrites | internal/controlplane/store/workloads.go:54-86 | a committed deploy adds exactly its workload, pending and without pid, and one port row per mapping, field by field |
| StoreHistory.StatusWrites | internal/controlplane/store/workloads.go:194-204 | a status update writes state, pid and time of the row with that name on that node and nothing else |
| StoreProofs.PortRejectionIsSerial | internal/controlplane/store/workloads.go:69-86 | a port conflict is reported only when name and node are fine and a requested key is repeated or claimed by a committed row |
| StoreProofs.CommittedDeployIsSerial | internal/controlplane/store/workloads.go:88-91 | a deploy that commits has a free name, an existing node and distinct unclaimed keys at commit time |
| StoreProofs.OwnsItsKeys | internal/controlplane/store/workloads.go:69-86 | a deploy with all its ports inserted holds keys that no committed row has |
| StoreProofs.CommittedRegisterIsSerial | internal/controlplane/store/nodes.go:123-126 | a registration that commits has an unused token and a free name at commit time, and a new node id and credential |
| StoreProofs.TokensAndNodesInBijection | internal/controlplane/store/nodes.go:72-74 | in every reachable state used tokens and nodes are in bijection through used_by_node |
| StoreProofs.TokenRegistersOnce | internal/controlplane/store/nodes.go:87-121 | under every interleaving a join token yields at most one committed node |
| StoreProofs.RunExtends | internal/controlplane/store/workloads.go:27-29 | over every run nodes and workloads stay, with name, credential, image, node and exact port rows unchanged, and a used token stays used by its node |
| StoreProofs.FreshIsUnowned | internal/controlplane/store/jointokens.go:13-26 | a newly generated secret or identifier is owned by no row and no transaction |
| StoreProofs.TokenKeepsInv | internal/controlplane/store/jointokens.go:19-24 | creating a join token keeps the invariant, every transaction in flight and every other token row, used or not |
| StoreProgress.RegisterRunsExactly | internal/controlplane/store/nodes.go:75-127 | whatever else is in flight, a registration runs through to its commit exactly when its token is unused, its name is free, and no other transaction holds the token's lock or an uncommitted node of that name; nobody else is disturbed |
| StoreProgress.DeployRunsExactly | internal/controlplane/store/workloads.go:46-92 | whatever else is in flight, a deploy runs through to its commit, with all its ports, exactly when the node exists, the name is free, the keys are distinct and unclaimed, and no other transaction has an uncommitted row with that name or one of those keys |
| StoreAnswers.RepeatedDeployIsRefused | internal/controlplane/store/workloads.go:59-65 | once a deploy is committed, no later deploy of the name is, and its definite answer is already-exists |
| StoreAnswers.RepeatedRegisterIsRefused | internal/controlplane/store/nodes.go:87-100 | once a registration is committed, its token registers nothing more, and the definite answer is already-exists |
| ControlPlane.AttachPorts | internal/controlplane/store/workloads.go:149-186 | the single batched query gives each workload exactly its own port rows, none lost or repeated, and keeps order and all other fields |
| ControlPlane.Regroup | internal/controlplane/store/workloads.go:169-177 | grouping the result set by workload gives each one the mappings of its own rows |
| ControlPlane.PortListsAgree | internal/controlplane/store/workloads.go:159-163 | two listings of a workload's ports agree as multisets, whatever order the query returns |
| ControlPlane.PortListStable | internal/controlplane/store/workloads.go:122-145 | reading a workload's ports later than the workload gives what reading them together would have |
| ControlPlane.QueryNodeWorkloads | internal/controlplane/store/workloads.go:123-140 | a node's listing holds each of its workloads once and no other |
| ControlPlane.Reply | internal/controlplane/api/heartbeat.go:63-73 | the reply has one entry per workload of the node, with its image and exactly its ports, although made from two queries |
| ControlPlane.DesiredStable | internal/controlplane/api/heartbeat.go:69-72 | what a reply describes stays desired in all later tables |
| ControlPlane.Server.Authenticate | internal/controlplane/store/nodes.go:134-151 | finds a node whose stored digest matches, and answers none only when there is none |
| ControlPlane.Server.Heartbeat | internal/controlplane/api/heartbeat.go:21-74 | exactly when each answer is given, a failing status update being answered with an error; a rejected request changes nothing; a failing status update leaves exactly the reports before it applied; success replies with the node's desired state |
| ControlPlane.Server.ApplyReports | internal/controlplane/api/heartbeat.go:56-61 | the loop stops at the first failing update with the reports before it applied, and otherwise applies all |
| ControlPlane.HeartbeatTouchesOnly | internal/controlplane/store/nodes.go:156-177 | a heartbeat changes the sample, address and time of the authenticated node's row, and of workloads only those on that node |
| ControlPlane.ReportsTouchOnly | internal/controlplane/store/workloads.go:188-204 | status reports change state, pid and timestamp of reported workloads of the reporting node and nothing else |
| ControlPlane.ReportsShow | internal/controlplane/store/workloads.go:194-204 | after the reports, a reported workload shows the state and pid that were reported for it |
| ControlPlane.ResolveTarget | internal/controlplane/api/workloads.go:50-78 | a given id must exist; an omitted one resolves exactly when there is a single node |
| StoreAnswers.ResolvedNodeStays | internal/controlplane/api/workloads.go:29-47 | once a node was found, no deploy to it is refused for a missing node in any run, and the node is found again under its name at the end |
| StoreAnswers.ListedNodeFound | internal/controlplane/api/workloads.go:80-103 | the node of every listed workload is there, under its name, at the end of any run between the two reads |
| ControlPlane.JoinNodes | internal/controlplane/api/workloads.go:80-103 | the node of every listed workload is found in the later list of nodes, under its name |
| Runtime.Containerd.Run | internal/runtime/containerd.go:95-165 | the object's state and result after Run are those of the specification, for every pattern of failing calls |
| Runtime.Containerd.Stop | internal/runtime/containerd.go:168-194 | the same for Stop; a successful Stop of a task whose process ran has seen the process exit before deleting the task, and a task that had stopped gets no signal |
| Runtime.Containerd.Cleanup | internal/runtime/containerd.go:202-210 | the same for the release of attachment, namespace and record, in that order |
| Runtime.Containerd.List | internal/runtime/containerd.go:257-305 | every container once, with its image and ports, the pid of its task, running exactly when the task's process runs and stopped exactly when it exited, and stopped with pid 0 without a task |
| Runtime.StatusTells | internal/runtime/containerd.go:275-305 | a reported status tells the truth about the task and its process |
| Runtime.Containerd.Mappings | internal/runtime/network.go:142-158 | CNI receives every mapping in order with an empty protocol read as tcp |
| Runtime.RunSuccess | internal/runtime/containerd.go:95-165 | Run succeeds exactly when no call fails and the name is free, and then all four resources are in place |
| Runtime.RunTouchesOnlyItsName | internal/runtime/containerd.go:95-165 | Run changes no resource of another name, however it ends |
| Runtime.FailedRunRestores | internal/runtime/containerd.go:108-162 | a failure at any step restores the exact previous resources when the cleanup calls succeed, also when the record existed before |
| Runtime.RestorationExact | internal/runtime/containerd.go:132-162 | the condition on the host under which that holds for every failure is necessary and sufficient |
| Runtime.EarlyFailureLeaves | internal/runtime/containerd.go:98-129 | a Run that does not reach the network changes nothing but the namespace it has just made, and takes that back unless the removal fails |
| Runtime.FailedRunLeaves | internal/runtime/containerd.go:108-162 | exactly which of the four resources a failed Run leaves of a new name: each cleanup call undoes its own, whatever became of the others, but a record outlives its task |
| Runtime.FailedRunLeftovers | internal/runtime/containerd.go:134-162 | whatever fails, cleanup included, a failed Run leaves no new process running, replaces no record and no task, and does not touch the attachment of a container |
| Runtime.LeakedAttachmentFate | internal/runtime/containerd.go:134-162 | exactly when a failed Run keeps an attachment: it did not get as far as the network, or put the same mappings there and could not remove them |
| Runtime.RunOrphansExactly | internal/runtime/containerd.go:108-162 | exactly which patterns of failing calls leave something of a name without its record, and exactly which leave the namespace that blocks it |
| Runtime.StopReleases | internal/runtime/containerd.go:168-210 | Stop only removes, in the order task, attachment, namespace, record; success leaves nothing |
| Runtime.StopAnswers | internal/runtime/containerd.go:168-210 | exactly when Stop succeeds and when it answers not-found, in terms of its calls; a task that has stopped already needs only to be read and deleted |
| Runtime.FailedStopLeaves | internal/runtime/containerd.go:196-210 | exactly what a failed Stop has removed, by the call that failed |
| Runtime.StopRetries | internal/runtime/containerd.go:196-210 | after any number of failed attempts, not-found and success both mean that nothing of the name remains, and an attempt without faults gets there |
| Runtime.OrphanNamespaceBlocksForever | internal/runtime/containerd.go:103-106 | a namespace without record makes every later Run fail and no sequence of calls removes it |
| Runtime.UntidyRunCanOrphan | internal/runtime/containerd.go:156-162 | one failing Run with one failing cleanup call leaves such a namespace on an empty host |
| Runtime.KilledRunIsAFault | internal/runtime/containerd.go:95-165 | wherever an agent dies in a Run, the host is that of a failing Run |
| Runtime.KilledStopIsAFault | internal/runtime/containerd.go:168-210 | the same for Stop |
| Runtime.AlreadyExistsExactly | internal/runtime/runtime.go:63-68 | the promised already-exists error comes exactly when a record has lost its namespace and nothing fails before |
| Runtime.RunTwice | internal/runtime/containerd.go:103-106 | a second Run of a name just started fails without that error and changes nothing |
| Runtime.AlreadyExistsNeedsHalfRelease | internal/runtime/containerd.go:124-129 | over every sequence of calls in which no Stop fails in its last step and no Run leaves a record without namespace, no Run gives that error |
| Runtime.HalfReleaseAnswersAlreadyExists | internal/runtime/containerd.go:202-210 | after a Stop that failed only in its last step, a Run without faults gives it |
| StopTask.StopTask | internal/runtime/containerd.go:215-247 | for every schedule of process, timer, exit channel and failures: a proper trace, nil exactly when the task was deleted, the outcome Stop builds on, SIGTERM whenever a live process is waited for, at most two signals, SIGKILL only when the channel did not deliver in time, a vain deletion only after an error on the channel, and no hang if SIGKILL ends the process |
| StopTask.DeletedExactly | internal/runtime/containerd.go:215-247 | a task is deleted exactly when its status can be read, it has stopped or an exit comes before the channel breaks, with SIGKILL after ten seconds, and the deletion works |
| StopTask.ProperAt | internal/runtime/containerd.go:230-245 | at every point of a proper trace, deletion follows a task seen stopped or exited and SIGKILL follows SIGTERM by the full grace period |
| FakeRuntime.Fake.Run | internal/runtime/fake.go:49-68 | the map operation that Run is, with the pull error in front |
| FakeRuntime.Fake.Stop | internal/runtime/fake.go:71-86 | the map operation that Stop is |
| FakeRuntime.Fake.SimulateCrash | internal/runtime/fake.go:112-123 | a crash keeps the entry and marks it stopped |
| FakeRuntime.FakeStepExactly | internal/runtime/fake.go:49-123 | which operations are granted, that a refused one changes nothing and that others change their own name only |
| FakeRuntime.RunRefines | internal/runtime/fake.go:49-68 | a successful Run is the Fake's Run; a failed one that takes its record back is no change |
| FakeRuntime.RunRefinesExactly | internal/runtime/containerd.go:134-162 | a Run is some operation of the Fake exactly when it does not fail with its record left behind |
| FakeRuntime.StopRefines | internal/runtime/fake.go:71-86 | a successful Stop is the Fake's Stop, not-found agrees, and a failed Stop is at worst a crash |
| FakeRuntime.SameAnswers | internal/runtime/fake.go:49-86 | without faults Stop and the Fake's Stop both succeed or both refuse, and so do Run and the Fake's exactly when no leftover without record is in the way |
| FakeRuntime.ContainerdRefinesFake | internal/runtime/containerd.go:95-194 | over every sequence of calls and process exits, Containerd shows what a Fake fed the mirrored operations shows, after every operation, if and only if no failing Run leaves its record behind |
| FakeRuntime.TidyRunsAreClean | internal/runtime/containerd.go:134-162 | when the cleanup calls succeed no record is left behind |
| FakeRuntime.UntidyRunDoesNotRefine | internal/runtime/containerd.go:156-162 | one failing Run on an empty host whose result no operation of the Fake gives |
| Reconcile.Reconcile | internal/agent/reconciler.go:128-159 | the loop's effect, number of successful starts and number of runtime calls are those of the specification |
| Reconcile.ByNameLast | internal/agent/reconciler.go:129-132 | an entry of the map is the last status of its name |
| Reconcile.ReconcileLeavesAlone | internal/agent/reconciler.go:119-138 | under any errors, a container seen running and one outside the desired names keep all their resources |
| Reconcile.ReconcileCounts | internal/agent/reconciler.go:134-158 | with distinct names, whatever the listing says and whatever fails, the desired names not running drop by the number of successful Run calls less the running containers that the round itself took down |
| Reconcile.ReconcileCountsExactly | internal/agent/reconciler.go:134-158 | the drop equals the successful Run calls for every pattern of errors exactly when no container listed as not running runs by now; containers that died since do not matter |
| Reconcile.ComingUpBreaksTheCount | internal/agent/reconciler.go:140-152 | the input: a container listed as unknown that runs when the loop acts is stopped and started again, for no gain |
| Reconcile.ReconcileConverges | internal/agent/reconciler.go:134-158 | without faults and orphans every desired workload ends up running, and a started one has the desired image and ports |
| Reconcile.ReconcileStartsExactly | internal/agent/reconciler.go:134-158 | on an outdated listing, exactly which desired workloads run after a fault-free round |
| Reconcile.RecordAfterRound | internal/agent/reconciler.go:135-138 | after a fault-free round a desired name has the desired image and ports exactly when it was not running before or had them |
| Reconcile.ReconcileKeepsNoOrphans | internal/agent/reconciler.go:134-158 | a round leaves no orphan, whatever fails, if none of its failing Runs leaks |
| Reconcile.ConvergesAfterFailures | internal/agent/reconciler.go:128-159 | after any number of failing rounds that did not leak and any crashes, one fault-free round starts every desired workload |
| Reconcile.ConvergesAfterTidyFailures | internal/agent/reconciler.go:128-159 | the same when the failing Runs' cleanup calls succeeded |
| Reconcile.ReconcileIdle | internal/agent/reconciler.go:135-138 | a round that sees everything running makes no runtime call |
| Reconcile.ListingIsFaithful | internal/agent/reconciler.go:129-132 | the map built from a listing says of every name what the runtime says |
| Agent.HeartbeatOnce | internal/agent/reconciler.go:98-117 | exactly when the round completes; whatever keeps it from completing, a failing status update included, no container is touched; a complete round starts what does not run, or makes no call and brings the store's columns up to date |
| Agent.TwoRounds | internal/agent/reconciler.go:98-159 | convergence: after one fault-free round everything runs, the second makes no runtime call, and state and pid in the store tell the truth about tasks and processes |
| Agent.RoundIdles | internal/agent/reconciler.go:134-138 | a right reply to a node where everything runs causes no runtime call |
| Agent.ReportsMakeCurrent | internal/controlplane/api/heartbeat.go:56-61 | reporting a full listing makes the columns of all the node's running workloads current |
| ContainerApi.FindContainer | internal/agent/containers.go:127-140 | the first status of the name, or none only when there is none |
| ContainerApi.Restart | internal/agent/containers.go:74-107 | the handler's effect and answer are those of the specification |
| ContainerApi.RestartExactly | internal/agent/containers.go:74-107 | exactly when a restart succeeds, with the image and ports the container had, and exactly when it loses the container |
| ContainerApi.RestartCanLose | internal/agent/containers.go:91-98 | on every host with the container, a fault-free Stop and a failing pull lose it |
| ContainerApi.LostIsNotFound | internal/agent/containers.go:87-90 | after any number of further restarts a lost container is still not found and nothing has changed |
| ClusterSafety.ActionKeepsInv | internal/agent/reconciler.go:54-73 | every action of machines, agents, handlers, transactions and network keeps the cluster invariant |
| ClusterActions.RestartResumes | internal/agent/reconciler.go:75-96 | an agent can die at any moment; a later start resumes with a saved credential and sends nothing, asks to join only without a file and with a token, and stops on a file it cannot read |
| ClusterActions.CredentialIsSavedFirst | internal/agent/reconciler.go:88-95 | a registration is used only when its credential could be saved; otherwise the agent stops |
| ClusterActions.UnansweredIsHarmless | internal/agent/reconciler.go:110-114 | an unanswered heartbeat leaves the containers alone and the next one can be sent |
| ClusterActions.HeartbeatIsSent | internal/agent/reconciler.go:98-114 | a heartbeat is the only message sent, under the agent's node and credential, with one report per container telling the truth about its task and process |
| ClusterActions.RequestsWereTrue | internal/agent/reconciler.go:105-108 | every request ever sent told the truth about its machine at some moment of the run |
| ClusterActions.ReplyIsTaken | internal/agent/reconciler.go:110-116 | a waiting agent takes any reply for its node and works through exactly that list |
| ClusterActions.LoopGoesOn | internal/agent/reconciler.go:134-158 | an acting agent is never stuck, and its next step is decided by the listing: pass over, clear, start, or finish |
| ClusterActions.LoopSteps | internal/agent/reconciler.go:134-158 | what each of these steps changes on the machine, and that it changes nothing else |
| ClusterActions.HandlerGoesOn | internal/controlplane/api/heartbeat.go:56-68 | a handler is never stuck: its next report is written, then the node's workloads are listed |
| ClusterActions.ReplyIsSent | internal/controlplane/api/heartbeat.go:63-73 | then the reply goes to the machine that asked, one spec per listed workload |
| ClusterActions.HandlersComeAndGo | internal/controlplane/api/heartbeat.go:21-55 | a request with a good credential can be handled as often as it arrives, and a failing handler leaves what it wrote |
| ClusterActions.CommitAnswers | internal/controlplane/store/nodes.go:123-127 | a committed registration answers the machine that asked with what was committed |
| ClusterSafety.ClusterIsSafe | internal/agent/reconciler.go:128-159 | over every run each container is there for a committed workload of its machine's node with the same image and ports, no workload is on two machines, neither recorded nor forwarded ports on a machine share host port and protocol, and nothing else runs or is forwarded |
| ClusterSafety.ForwardsDecide | internal/runtime/network.go:142-158 | two forwardings on one host with the same host port and protocol are the same one, orphaned attachments included |
| ClusterProgress.RepliesWereExact | internal/controlplane/api/heartbeat.go:63-73 | every reply ever sent was exact for the tables of some moment of the run: one entry per workload the node had then |
| ClusterProgress.RunKeepsUnorphaned | internal/runtime/containerd.go:108-162 | over every run a machine is free of orphans unless one of its failing Runs leaks |
| ClusterProgress.RoundConverges | internal/agent/reconciler.go:98-159 | after any run in which no failing Run of a machine leaked, a round of that machine whose calls succeed, interleaved with everything else, ends with every workload of the reply running its own image and ports |
| ClusterProgress.NextRoundIdles | internal/agent/reconciler.go:134-138 | when all of those run and nothing dies, the next round makes no runtime call, whatever goes on around it |
| ClusterLoops.RoundIsReconcile | internal/agent/reconciler.go:128-159 | the actions of one round in the cluster, interleaved and failing as they may, do to the machine what one call of reconcile does, with the same starts and calls |
| ClusterLoops.RoundCounts | internal/agent/reconciler.go:134-158 | so the counting law and the frame hold of rounds in the cluster |
| ClusterLoops.HandlerIsHeartbeat | internal/controlplane/api/heartbeat.go:21-74 | a handler that no other statement comes between writes the sample and then the first k reports, all of them when it gets to its listing |
| ClusterColumns.ColumnsAreLastWrite | internal/controlplane/store/workloads.go:188-204 | over every run the observed columns are what was written about the workload last |
| ClusterColumns.CurrentExactly | internal/controlplane/api/heartbeat.go:56-61 | columns that are right stay right exactly when nothing else was the last write |
| ClusterColumns.LateReportMisleads | internal/controlplane/api/heartbeat.go:56-61 | one late report that says something else makes them wrong |
| ClusterColumns.SecondRoundIsShown | internal/agent/reconciler.go:98-117 | at the end of a round in which everything already runs and only the handler of the request that the round sent writes about the node, the columns tell the truth about tasks and processes, whatever else goes on |
| ClusterWitness.ADeployedWorkloadCanRun | internal/controlplane/api/heartbeat.go:14-20 | for every name, image and list of mappings without repeated key, a run from an empty cluster joins a machine, deploys to it and ends its round with the container's four resources in place and the ports forwarded |
| ClusterSafety.RepliesStayTrue | internal/controlplane/api/heartbeat.go:63-73 | a reply received however late still describes workloads of that machine's node |
| ClusterSafety.RunKeepsHostOk | internal/agent/reconciler.go:154-157 | starting a desired workload, however it fails, leaves only things of desired workloads on the host |
| ClusterSafety.SavedForever | internal/agent/reconciler.go:75-96 | once saved, a credential is never replaced, authenticates as exactly its node in every later state, and its machine sends no registration again |
| ClusterSafety.OneTokenOneNode | internal/agent/credentials.go:13-15 | however often agents restart, all registration replies for one token are the same reply |
| ClusterTokens.TokenBuysOneNode | internal/controlplane/store/nodes.go:75-127 | over every run at most one registration with a given token is committed |
| ClusterTokens.NodesAreBought | internal/controlplane/store/nodes.go:102-121 | the nodes at the end of a run are those at its start and those counted as bought with some token |
| ClusterTokens.SavedTokenIsSpent | internal/agent/reconciler.go:75-96 | once a machine has saved the credential a token bought, the run has created exactly that node with it, and no run from there creates another |
| PortConversions.NarrowingLossless | internal/controlplane/api/heartbeat.go:79-92 | narrowing to sixteen bits loses nothing exactly when both ports fit, and is modulo 65536 otherwise |
| PortConversions.NarrowPorts | internal/controlplane/api/heartbeat.go:79-92 | the converted list widens back to the original when every port fits |
| PortConversions.WidenPorts | internal/controlplane/api/heartbeat.go:94-103 | every port handed to the store fits in sixteen bits and narrows back |
| PortConversions.ToApiPorts | cmd/ambudctl/ports.go:74-83 | nothing is lost or exchanged on the way to the wire type |
| PortConversions.FromApiPorts | internal/agent/containers.go:183-192 | nothing is lost or exchanged on the way from the wire type |
| PortPipeline.DeployedAsRequested | internal/controlplane/store/workloads.go:54-86 | a committed workload keeps for ever the requested name, image, node and mappings, an empty protocol stored as tcp |
| PortPipeline.PortsReachTheNode | internal/runtime/network.go:142-158 | the mappings of the command line reach CNI as the same multiset of host port, container port and protocol |
| ClusterPorts.PortsArrive | internal/runtime/network.go:142-158 | over every run, from the commit of a deploy on, what any machine forwards under its name is on the node asked for and is exactly the multiset of mappings of the command line |
| PortPipeline.StoredPortsProperIff | internal/controlplane/api/heartbeat.go:79-92 | stored ports lie between 1 and 65535 exactly when the requested ones do |
| PortPipeline.PortZeroIsStored | internal/controlplane/api/heartbeat.go:86-90 | an acceptable deploy of port 0 commits and is handed out again |
| PortText.ParseExact | cmd/ambudctl/ports.go:33-70 | a spec is accepted, with a given mapping, exactly when it is written in the notation for that mapping, a protocol being the letters of tcp or udp in any case |
| PortText.ParseSpecs | cmd/ambudctl/ports.go:18-31 | a list is accepted exactly when each spec is, and gives the mappings in order |
| PortText.FormatPorts | cmd/ambudctl/ports.go:85-97 | prints the mappings joined by commas, one as host, colon, container, slash and protocol, and a dash for none |
| PortText.FormatParsesBack | cmd/ambudctl/ports.go:85-97 | for every non-empty list of valid mappings, parsing the pieces between the commas returns the list |
| PortText.AcceptedReprints | cmd/ambudctl/ports.go:33-59 | an accepted spec yields a valid mapping whose printed form parses to it again |
| ImageName.DefaultNameIsTheName | cmd/ambudctl/run.go:58-73 | the derived name is the name in the reference, whatever colons and slashes path and digest contain |

## Left out

- HTTP, JSON, CORS, logging and the client packages: messages stand for them.
- PostgreSQL itself, migrations and connection handling: only constraints, statements and locks are kept; the ORDER BY of listings and created_at are not, so listings have no fixed order.
- containerd, go-cni, `ip netns`, SHA-256 and random generation: replaced by the assumptions above; Pull has no state of its own.
- Resource sampling: the figures are stored and not interpreted.
- Online and offline computation from heartbeat times: one comparison against the clock.
- The agent's own container API apart from restart: create, get, stop and pull each make the one runtime call that is modelled here. None of it takes part in the cluster theorems, since a user of it can start containers that no workload asked for.
- The web dashboard, table printing, command wiring, process start and shutdown: user interface.
- The scheduler, volumes and user accounts of the design documents: not implemented in the source.
- PortText.ParseExact: error texts are not modelled.
- FakeRuntime.ContainerdRefinesFake: process ids are not compared, because the Fake always reports 1, and the class of Run's error is not either.
- Agent.TwoRounds: no deploy and no crash happens between the two rounds; ClusterProgress.RoundConverges, ClusterProgress.NextRoundIdles and ClusterColumns.SecondRoundIsShown allow deploys and everything else.
- ClusterProgress.RoundConverges: the agent may act on an older reply that the network delivers again, so the workloads are those of the moment the reply was exact for.
- ClusterSafety.ClusterIsSafe: a deleted or copied credential file is outside the model, and so are containers started by hand on a machine.
- StopTask.StopTask: the time a signal or a deletion itself takes is not modelled.
- StopTask.OutcomeOf: a Stop that waits for ever is given the outcome of a failing one, so that runs can go on around it.
