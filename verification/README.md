# Graphlab verification

Dafny models of the parts of graphlab, a lab controller, whose correctness is hard to see from
the code: the journaled execution engine, the topology validator and planner, the PCAPNG
capture files, the derived packet index, message accounting, worker fencing, terminal
recordings and latency histograms. Every property is a statement about all inputs or all runs
of the model.

`dafny verify dfyconfig.toml` checks everything. Each file holds one module.

## How the parts are modelled

**Execution engine** (`EngineState`, `EngineTrace`, `EngineInvariants`, `Engine`). The journal
exists twice, in memory and on disk. A ghost world holds what the backend has created: prepared
resources, capture workers, netem qdiscs. A ghost trace holds every backend call with its
outcome. Requests are handled wherever the original releases its mutex, every call may fail with
or without effect, and the agent may die between any two statements and start again.
`Engine.Safe` is what holds at every moment of every such history: whatever exists is covered by
the journal in memory and by the journal on disk, keys and jobs correspond, no receipt is lost,
and the trace obeys the capture-first rule. `Engine.Lifetime` is the outer loop.

**Source commands** (`SourceCommands`, `NodeSources`). Admission, transmission and restart as a
step function over runs of events, and the node's ledger.

**Topologies and plans** (`Ordering`, `LoopPolicy`, `AddressPlan`, `Topology`, `Validation`,
`Canonicalisation`, `Scheduling`, `PlanSteps`, `Planner`). The validator's loops are methods proved
against declarative rules: cycles in a graph, address ranges, pairwise separation. The planner's
Kahn loop is proved against the greedy order.

**Capture files** (`Bytes`, `Headers`, `Pcapng`, `PcapngTheorems`, `CaptureWriter`). Blocks follow
sections 3.1, 3.5, 4.1, 4.2, 4.3 and 4.6 of draft-ietf-opsawg-pcapng. The writer is a class over the
bytes of its open segment; the decoder and the crash scanner are loops proved against recursive
readers.

**Packet index** (`PacketTables`, `PacketCatalog`, `PacketPaging`, `IndexRecovery`). Tables are values
that a transaction replaces whole or not at all; scans, queries, rebuilds and restarts interleave.
File replacement is a sequence of file operations that may be cut off anywhere.

**Messages, workers, recordings, histograms** (`MessageReporter`, `MessageHistory`, `WriterLease`,
`Workers`, `Recording`, `Histogram`). Classes with the original's fields, ghost histories beside
them, and a loop over arbitrary uses.

## Where the code does less than one would expect

- A control request to rotate a capture closes the segment and then opens the next one. Opening
  can fail after the section header was written, when the byte budget runs out, and the worker
  goes on without an interface block. If that segment is closed, the decoder refuses it
  (`CaptureWriter.UnreadableSegment`; `CaptureWriter.PublishedDecodes` gives the exact condition).
  If the worker crashes instead, the scanner stops at the first packet although it is whole
  (`CaptureWriter.UnscannedPacket`; `PcapngTheorems.CrashPrefix` gives the exact condition).
- A failing write leaves a part of a record in a terminal recording. The worker catches the failure
  and appends the next record behind it, and replay from there on can fail
  (`Recording.TornThenContinued`). As long as nothing is appended behind it, replay is exact
  (`Recording.ReplayAfterFailure`).
- A source command is sent at most once unless its admission could not be saved while the worker
  was watching: the command is then sent although nothing on disk remembers it, and the same
  command is admitted and sent again after a restart.
  `SourceCommands.RefusedWhileWatchingCanRepeat` is such a run for every command. Whether a command
  can still be sent is exactly whether its key is missing from the journal on disk, with room for
  it (`SourceCommands.SentAgainExactly`).
- A worker records a new controller's generation before it pauses the machine. If pausing fails,
  the old controller is fenced off but the machine runs on until its lease expires or the new
  controller acts. Only an adoption that succeeds leaves it paused (`Workers.VmWorker.Accede`).
- A machine in a container of its own is not the worker's child. When the worker closes, dies, or
  fails to pause it at the end of its lease, it runs on without a lease until the container's
  watchdog misses the heartbeat (`Workers.ClosedWorkerLeavesMachine`,
  `Workers.ExpiredLeaseLeavesMachine`). While the worker is there, running means leased.
- Recovery of the packet index finds no quarantined copy to protect when the index had no main
  file. A retry after publication then quarantines the new database. No original file is affected.

## Model

| member | source | states |
|---|---|---|
| `Engine.Engine.constructor` | cpp/runtime/engine.cpp:69-75 | the journal, the world and the trace start empty and safe |
| `Engine.Engine.Commit` | cpp/runtime/engine.cpp:204-231 | a failing save stops the engine, and what is on disk is either the old or the new journal, never a mixture |
| `Engine.Engine.Save` | cpp/runtime/engine.cpp:204-231 | the worker's save, which may also die on either side of the commit, keeps every resource, worker and qdisc covered by the journal on disk |
| `Engine.Engine.Submit` | cpp/runtime/engine.cpp:461-601 | the reply and the new journal are those of the admission decision; an accepted job is on disk and acknowledged from then on; repeating any acknowledged request of any of the four kinds is answered with its job, and reusing its key for another request is refused |
| `Engine.Engine.Cancel` | cpp/runtime/engine.cpp:461-475 | a granted cancellation marks a pending start or fault application and nothing else, and is on disk; a refused one changes nothing unless its save failed |
| `Engine.Engine.Interleave` | cpp/runtime/engine.cpp:461-601 | any number of requests between two locked sections only admit: the running job and everything that exists keep their records |
| `Engine.Engine.Yield` | cpp/runtime/engine.cpp:602-616 | requests handled before the worker takes the mutex keep all invariants and only admit |
| `Engine.Engine.Update` | cpp/runtime/engine.cpp:772-777 | one run's record changes in memory and is saved; covers of the world are kept in both journals |
| `Engine.Engine.Status` | cpp/runtime/engine.cpp:684-686 | a status call and its outcome enter the trace; requests meanwhile only admit |
| `Engine.Engine.Prepare` | cpp/runtime/engine.cpp:818-842 | a resource may come to exist only after its intent is on disk |
| `Engine.Engine.Remove` | cpp/runtime/engine.cpp:732-750 | success means gone; called only when nothing created in a later class still exists, so edges go before nodes before networks |
| `Engine.Engine.ArmCaptures` | cpp/runtime/engine.cpp:794-812 | workers of the current epoch's descriptors may come to exist only after the descriptors are on disk |
| `Engine.Engine.StopCaptures` | cpp/runtime/engine.cpp:711-728 | success means that no capture worker of the run exists |
| `Engine.Engine.ApplyQdisc` | cpp/telemetry/engine.cpp:186-206 | a qdisc may come to exist only while its fault is live on disk |
| `Engine.Engine.RemoveQdisc` | cpp/telemetry/engine.cpp:227-242 | success means that the qdisc is gone |
| `Engine.Engine.Change` | cpp/runtime/engine.cpp:772-777 | a job changes only its own run, and its changes are saved before it goes on |
| `Engine.Engine.CancelAsked` | cpp/runtime/engine.cpp:766-771 | a stopping engine abandons the job; otherwise the cancellation mark is read without changing anything |
| `Engine.Engine.RetireCaptures` | cpp/runtime/engine.cpp:778-793 | armed captures are stopped before their descriptors move to the history under a new epoch |
| `Engine.Engine.LaunchCaptures` | cpp/runtime/engine.cpp:794-812 | the new descriptors are saved, then armed; success leaves the run armed at its current epoch |
| `Engine.Engine.Arm` | cpp/runtime/engine.cpp:778-812 | success leaves the captures armed at a new epoch with no stop since |
| `Engine.Engine.CloseCaptures` | cpp/runtime/engine.cpp:711-728 | success leaves no capture worker of the run, and of its record only the coverage changes |
| `Engine.Engine.ClearFaults` | cpp/telemetry/engine.cpp:227-242 | success leaves no live fault of the run recorded, and with everything covered therefore no qdisc |
| `Engine.Engine.Cleanup` | cpp/runtime/engine.cpp:729-751 | success leaves nothing of the run in the world |
| `Engine.Engine.PrepareAll` | cpp/runtime/engine.cpp:818-846 | preparing the resources one by one, each under its saved intent, changes only the run's resource records and keeps every resource covered |
| `Engine.Engine.CheckAndRelease` | cpp/runtime/engine.cpp:853-858 | traffic of a captured run is released only when armed at its epoch and after a successful status |
| `Engine.Engine.Compensate` | cpp/runtime/engine.cpp:859-874 | a cancelled start ends with nothing left in the world and the job recorded as cancelled |
| `Engine.Engine.StartRunning` | cpp/runtime/engine.cpp:813-874 | start keeps all invariants; a captured run that becomes ready has healthy captures of its epoch |
| `Engine.Engine.StopRunning` | cpp/runtime/engine.cpp:875-879 | success leaves the run stopped, with every invariant kept on the way |
| `Engine.Engine.ResumeRunning` | cpp/runtime/engine.cpp:880-896 | resume releases only with newly armed, checked captures and no fault failure |
| `Engine.Engine.DestroyRun` | cpp/runtime/engine.cpp:897-903 | success leaves nothing of the run in the world |
| `Engine.Engine.Execute` | cpp/runtime/engine.cpp:752-919 | a destroy or recover that succeeds leaves nothing of the run; every other operation keeps all invariants whatever fails |
| `Engine.Engine.FailJob` | cpp/runtime/engine.cpp:631-656 | after a failure the job is failed and its run is not ready |
| `Engine.Engine.BeginJob` | cpp/runtime/engine.cpp:617-630 | a queued job is saved as running before any effect, so it is started once |
| `Engine.Engine.Work` | cpp/runtime/engine.cpp:602-657 | a turn of the worker keeps all invariants, whatever fails or dies |
| `Engine.Engine.Monitor` | cpp/runtime/engine.cpp:658-710 | every ready captured run still has healthy captures after watching, or is no longer ready |
| `Engine.Engine.Renew` | cpp/runtime/engine.cpp:676-689 | the check and renewal of one run keep the trace rule, and on success no ready run is without healthy captures |
| `Engine.Engine.HealthFailed` | cpp/runtime/engine.cpp:690-710 | a failed check leaves the run out of the ready state |
| `Engine.Engine.FaultFailure` | cpp/telemetry/engine.cpp:263-297 | a fault that cannot be handled takes its run out of the ready state before the one quiesce call, and its qdisc stays covered |
| `Engine.Engine.ExpireFault` | cpp/telemetry/engine.cpp:303-327 | removing an expired fault keeps its qdisc covered until it is gone and touches no captures |
| `Engine.Engine.MonitorFaults` | cpp/telemetry/engine.cpp:298-327 | expiry of any faults of any runs keeps all invariants and touches no captures |
| `Engine.Engine.RunFault` | cpp/telemetry/engine.cpp:168-226 | on completion the fault is live exactly when an application succeeded; the qdisc is covered throughout, also when cancelled or failed |
| `Engine.Engine.ConcludeFault` | cpp/telemetry/engine.cpp:200-226 | the job ends cancelled or succeeded, and the fault is live exactly when an application was not cancelled |
| `Engine.Engine.FailPending` | cpp/runtime/engine.cpp:125-137 | at start-up every job that was pending has failed, so none is started again |
| `Engine.Engine.AdoptRun` | cpp/runtime/engine.cpp:138-173 | a new generation is saved before any worker is adopted, and a captured run is never left ready |
| `Engine.Engine.RecoverFault` | cpp/telemetry/engine.cpp:243-262 | handling a doubtful fault at start-up keeps every qdisc covered and leaves no job waiting |
| `Engine.Engine.Reserve` | cpp/runtime/engine.cpp:813-817 | the first calls of a start change nothing of the run but its revision |
| `Engine.Engine.Revive` | cpp/runtime/engine.cpp:880-887 | success leaves a captured run armed at its epoch |
| `Engine.Engine.Restart` | cpp/runtime/engine.cpp:69-188 | from whatever was on disk, start-up restores all invariants with no job waiting |
| `Engine.Engine.Lifetime` | cpp/runtime/engine.cpp:69-919 | over any sequence of starts, requests, turns and deaths: whatever exists is covered by the last committed journal, the trace is safe, and acknowledgements only accumulate, from every receipt on disk at the start and every acceptance since, with the journal on disk bearing all of them out |
| `EngineState.AcceptMeans` | cpp/runtime/engine.cpp:484-503 | a request is accepted only under a new key, with room for it, and with no job pending |
| `EngineInvariants.ResubmissionReturnsSameJob` | cpp/runtime/engine.cpp:484-503 | in every journal that bears out an acknowledgement, which by the lifetime theorem is every later one, the same request answers with the same job, a fault request included, and another request under that key is refused |
| `EngineState.AppliedConsistent` | cpp/runtime/engine.cpp:586-600 | an acceptance keeps keys and jobs in bijection, at most 256 of them, and at most one job pending |
| `EngineState.AppliedAdmits` | cpp/runtime/engine.cpp:586-600 | an acceptance adds one job and leaves every existing job, key and record as it was |
| `EngineState.AdmitsCovers` | cpp/runtime/engine.cpp:461-601 | nothing that exists loses its cover while requests are admitted |
| `EngineInvariants.NothingLeft` | cpp/runtime/engine.cpp:729-751 | a run whose resources are removed, whose faults are dead and whose workers are stopped has nothing left in the world |
| `EngineInvariants.OnlyLowerLeft` | cpp/runtime/engine.cpp:732-750 | removal in reverse order of creation leaves only resources of no higher class |
| `EngineTrace.ReleaseIsCaptured` | cpp/runtime/engine.cpp:853-858 | in every safe trace a release of a captured run follows a successful arm of its epoch and a successful status, with nothing in between that stops or invalidates them |
| `EngineTrace.RenewIsChecked` | cpp/runtime/engine.cpp:658-710 | every renewal follows its own successful status under a live arm |
| `EngineTrace.NoTrafficAfterFailure` | cpp/runtime/engine.cpp:658-710 | after a failed health check neither release nor renew is issued until the captures are armed again |
| `EngineTrace.JobsStartOnce` | cpp/runtime/engine.cpp:617-630 | no job is started twice, across any restarts |
| `SourceCommands.SentAtMostOnce` | cpp/runtime/source_control.cpp:96-187 | in every run of admissions, transmissions and restarts each command is sent at most once, unless its admission was refused by a failing save while the worker was watching |
| `SourceCommands.NeverLostSentOnce` | cpp/runtime/source_control.cpp:96-187 | a run in which the agent is never gone with a sent command missing from the disk sends that command at most once |
| `SourceCommands.SentAgainExactly` | cpp/runtime/source_control.cpp:96-187 | with the agent gone, some continuation sends a command exactly when its key is not on disk and the journal has room |
| `SourceCommands.LostIsDoubtful` | cpp/runtime/source_control.cpp:96-187 | only a command whose admission was refused while the worker was watching is ever sent and missing from the disk |
| `SourceCommands.RefusedWhileWatchingCanRepeat` | cpp/runtime/source_control.cpp:96-187 | for every command a run from the first start that sends it twice |
| `SourceCommands.RefusedThenRepeated` | cpp/runtime/source_control.cpp:96-187 | from any state in which the worker watches, a refused admission of a new least key can lead to two transmissions of it |
| `SourceCommands.StepKeeps` | cpp/runtime/source_control.cpp:96-187 | every step keeps what the at-most-once theorem needs: a command not yet pending on disk was not sent |
| `NodeSources.Sources.Apply` | packages/lab-support/cpp/source_control.hpp:26-53 | reply and ledger are those of the specification: a known identifier repeats its acknowledgement or conflicts, a new one is applied once |
| `NodeSources.LedgerOnlyGrows` | packages/lab-support/cpp/source_control.hpp:26-53 | acknowledged commands are never forgotten or changed |
| `NodeSources.RedeliveryIsHarmless` | packages/lab-support/cpp/source_control.hpp:26-53 | delivering an acknowledged command again, however late, is acknowledged and changes nothing |
| `NodeSources.ReusedIdentifierConflicts` | packages/lab-support/cpp/source_control.hpp:26-53 | an identifier reused for a different command is refused, whatever came in between |
| `LoopPolicy.CheckLoops` | packages/lab-support/cpp/contracts.cpp:455-483 | under the rstp policy the union-find check passes exactly when every switch whose component contains a cycle has RSTP, whatever the order of the edges |
| `LoopPolicy.Root` | packages/lab-support/cpp/contracts.cpp:461-465 | the uncompressed walk to the root terminates and finds the tree's root |
| `LoopPolicy.SharesRoot` | packages/lab-support/cpp/contracts.cpp:478-483 | whether a switch lies in the tree of a marked node |
| `LoopPolicy.UnionStep` | packages/lab-support/cpp/contracts.cpp:467-476 | hanging one root below the other keeps trees equal to connected components |
| `LoopPolicy.FlaggedIsLoop` | packages/lab-support/cpp/contracts.cpp:466-476 | some link closes a cycle in the order of processing exactly when the component contains a closed path without repeated links, parallel links and self-links included |
| `LoopPolicy.NonBridgeIsFlagged` | packages/lab-support/cpp/contracts.cpp:466-476 | a link whose ends stay connected without it leads to a marked node in its component, wherever it stands in the list |
| `LoopPolicy.ConnIsConnected` | packages/lab-support/cpp/contracts.cpp:466-476 | link-by-link connectivity is the existence of a path |
| `AddressPlan.FirstLast` | packages/lab-support/cpp/contracts.cpp:74-86 | masking and complementing give the first and the last address of the block |
| `AddressPlan.InsideIsHeld` | packages/lab-support/cpp/contracts.cpp:86 | one-way containment is membership of the address in the range |
| `AddressPlan.OverlapExact` | packages/lab-support/cpp/contracts.cpp:500-502 | the two-way test is true exactly when some address is in both blocks (blocks as in section 3.1 of RFC 4632) |
| `AddressPlan.WithinExact` | packages/lab-support/cpp/contracts.cpp:498-499 | prefix comparison and containment test together are inclusion of address ranges |
| `AddressPlan.CheckNetwork` | packages/lab-support/cpp/contracts.cpp:494-508 | accepts exactly the networks with a canonical subnet of prefix 8 to 30, a canonical pool inside it, a usable gateway outside the pool and no external access |
| `AddressPlan.CheckOverlap` | packages/lab-support/cpp/contracts.cpp:500-502 | accepts exactly when the new subnet shares no address with those accepted before |
| `AddressPlan.CheckNetworks` | packages/lab-support/cpp/contracts.cpp:488-512 | accepts exactly the well-formed, pairwise disjoint networks, and hands on their subnets, pools and gateways |
| `AddressPlan.CheckAddress` | packages/lab-support/cpp/contracts.cpp:525-531 | an address fits exactly when its prefix is the subnet's and it is usable and outside the pool |
| `AddressPlan.CheckAttachments` | packages/lab-support/cpp/contracts.cpp:513-532 | accepts exactly when every attachment has its own management port and its own usable address other than the gateway's |
| `AddressPlan.PlanSound` | packages/lab-support/cpp/contracts.cpp:484-532 | in an accepted plan all gateways and attachments have distinct usable addresses, each in its own subnet only and outside every pool |
| `Ordering.Sort` | packages/lab-support/cpp/contracts.cpp:533-536 | the result is the same elements in order of their keys |
| `Ordering.Least` | cpp/planner.cpp:140 | the first element of an ordered set of strings |
| `Ordering.ArrangeReordered` | packages/lab-support/cpp/contracts.cpp:533-536 | the sorted form of a list without repeated keys does not depend on its order |
| `Ordering.OneArrangement` | packages/lab-support/cpp/contracts.cpp:533-536 | a list has at most one strictly ascending arrangement |
| `Validation.CheckVlan` | packages/lab-support/cpp/contracts.cpp:309-330 | accepts exactly valid access identifiers and non-empty trunks of distinct valid ones, and sorts the latter |
| `Validation.CheckPort` | packages/lab-support/cpp/contracts.cpp:296-346 | accepts exactly the ports the kind of node may have and its contract declares, with role, medium and MTU as declared, and makes their defaults explicit |
| `Validation.CheckPorts` | packages/lab-support/cpp/contracts.cpp:294-346 | accepts exactly when every port is acceptable, and returns their canonical form |
| `Validation.CheckRequired` | packages/lab-support/cpp/contracts.cpp:347-352 | accepts exactly when every interface that the contract requires is there |
| `Validation.CheckAddresses` | packages/lab-support/cpp/contracts.cpp:353-360 | accepts exactly addresses on declared data ports |
| `Validation.CheckNode` | packages/lab-support/cpp/contracts.cpp:266-361 | accepts exactly nodes with their policy or resolved contract, every required interface, ports the contract declares, and addresses on data ports |
| `Validation.CheckNodes` | packages/lab-support/cpp/contracts.cpp:262-362 | accepts exactly when every node is acceptable, and returns their canonical form |
| `Validation.CheckEdges` | packages/lab-support/cpp/contracts.cpp:373-402 | accepts exactly when edges have unique identifiers, no endpoint is used twice, and each joins compatible declared data ports under the self-link rule |
| `Validation.CheckReferences` | packages/lab-support/cpp/contracts.cpp:437-446 | accepts exactly known edges, each named once |
| `Validation.CheckFlow` | packages/lab-support/cpp/contracts.cpp:414-446 | accepts exactly flows between workload nodes over known, distinct data edges, at most 256 of them, with a well-formed protocol declaration if any |
| `Validation.CheckFlows` | packages/lab-support/cpp/contracts.cpp:403-454 | accepts exactly acceptable flows with unique identifiers and returns them normalised |
| `Validation.EndpointSpells` | packages/lab-support/cpp/contracts.cpp:363-372 | an endpoint denotes the port it spells out, because names hold no colon |
| `Validation.CheckLoopRule` | packages/lab-support/cpp/contracts.cpp:455-483 | the loop rule applied to the document's edges |
| `Validation.CheckManagement` | packages/lab-support/cpp/contracts.cpp:484-532 | networks and attachments together |
| `Validation.CheckHeading` | packages/lab-support/cpp/contracts.cpp:224-258 | accepts exactly the supported version, backend and capture section, the digest of the given lock, no required features, and node and edge counts within the limits |
| `Validation.Validate` | packages/lab-support/cpp/contracts.cpp:221-543 | returns the canonical form of exactly the acceptable documents |
| `Canonicalisation.OneCanonicalForm` | packages/lab-support/cpp/contracts.cpp:256-261 | documents that differ only in the order of edges, attachments, trunk VLANs, flows or their network edges, or in written-out defaults, are accepted alike and have one canonical form |
| `Canonicalisation.CanonicalIsFixed` | packages/lab-support/cpp/contracts.cpp:533-542 | validating a canonical form accepts it and returns it unchanged |
| `Canonicalisation.CanonicalIsSimilar` | packages/lab-support/cpp/contracts.cpp:256-261 | the canonical form itself differs from the document only in order and defaults |
| `Scheduling.Prepare` | cpp/planner.cpp:124-137 | finds a missing dependency exactly when there is one; otherwise counts dependencies, lists dependents and collects the ready steps |
| `Scheduling.Release` | cpp/planner.cpp:143-145 | decrementing the dependents of a placed step keeps all counts, and makes ready exactly the steps whose last dependency it was |
| `Scheduling.Kahn` | cpp/planner.cpp:124-148 | the order is complete, dependencies come first, each position holds the lexically least ready step; a missing dependency is reported exactly when there is one and a cycle only when no order exists |
| `Scheduling.GreedyUnique` | cpp/planner.cpp:138-146 | there is one greedy order |
| `Scheduling.PhasedHasOrder` | cpp/planner.cpp:124-148 | steps whose dependencies lie in earlier phases can be ordered |
| `PlanSteps.NamesDiffer` | cpp/planner.cpp:14-20 | different steps have different names, whatever the identifiers |
| `PlanSteps.AddNetworks` | cpp/planner.cpp:24-28 | one step for each management network |
| `PlanSteps.FindNetworks` | cpp/planner.cpp:31-33 | the networks of exactly the attachments of the node |
| `PlanSteps.AddNodes` | cpp/planner.cpp:29-49 | one step for each node, after preflight and its networks |
| `PlanSteps.AddEdges` | cpp/planner.cpp:50-65 | one step for each edge, after its two nodes |
| `PlanSteps.AddGuests` | cpp/planner.cpp:73-79 | one step for each virtual machine, after the policy and its node |
| `PlanSteps.AddCaptures` | cpp/planner.cpp:80-102 | one step for each edge's capture, after the policy and the edge |
| `PlanSteps.AddReleases` | cpp/planner.cpp:110-119 | release and health steps for each workload |
| `PlanSteps.Build` | cpp/planner.cpp:13-122 | exactly the steps of the topology, with their operations and dependencies |
| `Planner.StepsOrderable` | cpp/planner.cpp:124-148 | the steps of a validated topology miss no dependency and have an order |
| `Planner.PreflightFirstReadyLast` | cpp/planner.cpp:21-122 | in every order of the steps preflight is first and ready is last |
| `Planner.CapturesBeforeReleases` | cpp/planner.cpp:93-119 | every release follows every capture |
| `Planner.TeardownReverses` | cpp/planner.cpp:149-154 | of two resource steps the one that ran later is torn down first |
| `Planner.TeardownHolds` | cpp/planner.cpp:149-154 | teardown lists exactly the steps that prepare something or arm a capture |
| `Planner.ComputeTeardown` | cpp/planner.cpp:149-154 | the loop computes that list |
| `Planner.DependentsFirst` | cpp/planner.cpp:149-154 | teardown removes a resource before every resource that its step depends on, directly or through any other steps |
| `Planner.GuestsBeforeLinks` | cpp/planner.cpp:73-79 | every paused guest is torn down before every link |
| `Planner.Plan` | cpp/planner.cpp:8-170 | plans exactly the accepted documents; the planner's own errors never occur |
| `Planner.OnePlan` | cpp/planner.cpp:8-170 | documents that differ only in order and defaults have the same plan |
| `Bytes.GetPut` | cpp/capture/writer.cpp:10-21 | reading a little-endian field gives back what was written, modulo its width |
| `Bytes.PutGet` | cpp/capture/writer.cpp:10-21 | writing what was read gives back the bytes |
| `Bytes.AppendField` | cpp/capture/writer.cpp:10-21 | the shifting loop appends the little-endian field |
| `Bytes.ReadField` | cpp/terminal/recording.cpp:8-17 | the accumulating loop reads the little-endian field |
| `Headers.DecodeHeaders` | cpp/telemetry/packet_decoder.cpp:16-113 | the loop over VLAN tags and headers computes the specified decoding |
| `Headers.TruncationNeverMisreports` | cpp/telemetry/packet_decoder.cpp:16-113 | a cut packet is reported like the whole one, an identifier beyond the cut aside, or as truncated with only fields of the whole packet and its protocol or an enclosing one |
| `Pcapng.CheckOptions` | cpp/telemetry/packet_decoder.cpp:134-150 | accepts exactly well-formed option lists with microsecond resolution |
| `Pcapng.DecodeSegment` | cpp/telemetry/packet_decoder.cpp:115-183 | the decoding loop computes the recursive reader |
| `Pcapng.InspectPartial` | cpp/capture/writer.cpp:104-148 | the scanning loop computes the valid prefix |
| `PcapngTheorems.RoundTrip` | cpp/capture/writer.cpp:153-266 | decoding what the writer wrote succeeds with the exact packet count and, up to the limit, each packet's index, time, lengths and block offset |
| `PcapngTheorems.HeaderlessRejected` | cpp/telemetry/packet_decoder.cpp:115-183 | a segment without its interface block is refused as soon as it holds a packet or statistics |
| `PcapngTheorems.CrashPrefix` | cpp/capture/writer.cpp:104-148 | cut any file of the writer at any byte: the scanner reports the greatest block boundary not past the cut, if and only if the interface block was written or no packet lies wholly before the cut |
| `PcapngTheorems.ScannedPrefix` | cpp/capture/writer.cpp:104-148 | what it reports in every case: the greatest boundary among the blocks up to the first packet without an interface block |
| `PcapngTheorems.DamageKeepsPrefix` | cpp/capture/writer.cpp:104-148 | whatever bytes follow in the file, the scanner counts every whole block before them that it can count |
| `PcapngTheorems.AcceptedIsWhollyValid` | cpp/telemetry/packet_decoder.cpp:121-179 | the scanner reports the whole length of whatever the decoder accepts |
| `CaptureWriter.Writer.constructor` | cpp/capture/writer.cpp:102-103 | nothing is written yet |
| `CaptureWriter.Writer.Emit` | cpp/capture/writer.cpp:153-163 | a block is appended whole, or refused when it would exceed the byte budget |
| `CaptureWriter.Writer.Open` | cpp/capture/writer.cpp:164-194 | the open segment holds the section block exactly when the budget allows it, and the interface block exactly when the budget allows both and the metadata are not too long |
| `CaptureWriter.Writer.Record` | cpp/capture/writer.cpp:195-212 | a packet block is appended and counted; it is refused with nothing written exactly when its lengths are wrong or the budget does not allow it |
| `CaptureWriter.Writer.Close` | cpp/capture/writer.cpp:217-266 | the published segment holds the entries recorded, and its manifest entry their counts and lengths |
| `CaptureWriter.PublishedDecodes` | cpp/capture/writer.cpp:217-266 | a published segment decodes with the manifest's packet count if and only if both header blocks were written and it has at most a million blocks |
| `CaptureWriter.Fill` | cpp/capture/manager.cpp:136-211 | in every configuration of the manager a segment can be filled and closed so that only a section block and a small packet still fit |
| `CaptureWriter.UnreadableSegment` | cpp/capture/worker.cpp:246-251 | in every configuration of the manager: after such a close the next open fails and its segment, published by the close after it, is refused by the decoder |
| `CaptureWriter.UnscannedPacket` | cpp/capture/worker.cpp:246-251 | in every configuration of the manager: after such a failing open any frame of at most 44 bytes is written whole and the crash scanner does not count it |
| `CaptureWriter.BudgetHolds` | cpp/capture/writer.cpp:153-163 | closed segments and the open one never exceed the byte budget |
| `Recording.Recorder.Append` | cpp/terminal/recording.cpp:72-89 | one numbered record is appended with its output offset, or exactly one reason refuses it; a failing write leaves any part of the record in the file and the counters as they were |
| `Recording.ReplayAfterFailure` | cpp/terminal/recording.cpp:72-89 | a failed write with nothing after it: replay yields exactly the whole records, with a partial tail exactly when bytes of the failed one are there |
| `Recording.TornThenRefused` | cpp/terminal/recording.cpp:137-203 | a record torn within its kind, then another record: replay from there on fails, whatever is appended later |
| `Recording.TornThenContinued` | cpp/terminal/worker.cpp:359-364 | any recorder with room and only whole records can get there in two calls |
| `Recording.Recorder.Close` | cpp/terminal/recording.cpp:94-111 | the log is published under its final name exactly when synchronisation and link succeed, and nothing can be appended afterwards; which step failed is reported |
| `Recording.ReplayFile` | cpp/terminal/recording.cpp:137-203 | the paging loop computes the recursive reader |
| `Recording.PageMoves` | cpp/terminal/recording.cpp:137-203 | a page that does not end the replay moves forward, so following pages terminates |
| `Recording.ReplayIsExact` | cpp/terminal/recording.cpp:137-203 | on a log cut at any byte after the magic, following pages from the start yields exactly the complete records, once each and in order, with their offsets, and flags a partial tail exactly when bytes remain |
| `PacketTables.FindBoundary` | cpp/telemetry/packet_history.cpp:201-207 | finds the receipt after the latest thousand, if there is one |
| `PacketTables.Recycle` | cpp/telemetry/packet_history.cpp:201-217 | leaves at most a thousand keyed receipts; every receipt that went is at or below the floor, which does not fall |
| `PacketTables.Prune` | cpp/telemetry/packet_history.cpp:218-235 | leaves, of the recent rows, the latest that fit the count and byte limits; the generation moves exactly when a row went |
| `PacketTables.DeletionShows` | cpp/telemetry/packet_history.cpp:233-234 | once a row is gone the generation has moved |
| `PacketCatalog.Window` | cpp/telemetry/packet_history.cpp:322-367 | keeps the candidates of the latest thousand keys |
| `PacketCatalog.History.constructor` | cpp/telemetry/packet_history.cpp:107-176 | opens new or existing tables of either version |
| `PacketCatalog.History.Known` | cpp/telemetry/packet_history.cpp:236-274 | known means a receipt, or a key at or below the floor unless rebuilding; a version 1 receipt gets its key |
| `PacketCatalog.History.Save` | cpp/telemetry/packet_history.cpp:275-321 | receipt and rows are inserted together, then retention and recycling apply, or nothing changes; it fails exactly for a known segment, an oversized record or a failing commit |
| `PacketCatalog.History.Query` | cpp/telemetry/packet_history.cpp:557-593 | retention first, then a scan is queued unless the cursor is refused or one is pending or running; receipts and floor are untouched |
| `PacketCatalog.History.Rebuild` | cpp/telemetry/packet_history.cpp:466-495 | refused while busy; otherwise exactly the rows and receipts of the run go in one transaction, in a new generation, and its re-indexing is queued |
| `PacketCatalog.History.Visit` | cpp/telemetry/packet_history.cpp:369-412 | one candidate is skipped or indexed; at most 128 are accepted in an ordinary scan |
| `PacketCatalog.History.Scan` | cpp/telemetry/packet_history.cpp:322-413 | a scan, cut off anywhere, keeps all invariants |
| `PacketCatalog.History.Work` | cpp/telemetry/packet_history.cpp:414-462 | the worker takes a request and is idle again afterwards |
| `PacketCatalog.History.Lifetime` | cpp/telemetry/packet_history.cpp:201-495 | over any interleaving of scans, queries, rebuilds, failures and restarts: no packet of a segment is listed twice, segments of runs never rebuilt were inserted at most once ever, keyed receipts stay within the limit and the floor never falls |
| `PacketPaging.Collect` | cpp/telemetry/packet_history.cpp:596-614 | the first selected rows, newest first |
| `PacketPaging.Query` | cpp/telemetry/packet_history.cpp:540-624 | scope and expiry errors exactly when the cursor is foreign or the generation moved; otherwise the page and its cursor |
| `PacketPaging.ChainWalksSnapshot` | cpp/telemetry/packet_history.cpp:540-624 | the pages of a chain and what is still to come make up the rows of the first page, whatever was inserted meanwhile |
| `PacketPaging.FinishedChain` | cpp/telemetry/packet_history.cpp:540-624 | a finished chain returned exactly the matching rows present at its first page, identifiers strictly descending |
| `PacketPaging.DeletionExpires` | cpp/telemetry/packet_history.cpp:218-235 | after any deletion of such a row the cursor is refused |
| `IndexRecovery.Directory.Open` | cpp/telemetry/packet_history.cpp:107-116 | the index cannot be opened while the marker is there |
| `IndexRecovery.Directory.SetAside` | cpp/telemetry/packet_history.cpp:519-528 | a file is quarantined once and never over an earlier copy |
| `IndexRecovery.Directory.Publish` | cpp/telemetry/packet_history.cpp:529-538 | the marker goes only after every original is in quarantine and the new index is in place |
| `IndexRecovery.Directory.Recover` | cpp/telemetry/packet_history.cpp:496-539 | an attempt, cut off between any two file operations, keeps every original; a finished one has them all byte-identical in quarantine; an existing quarantine without marker is refused |
| `IndexRecovery.Directory.Lifetime` | cpp/telemetry/packet_history.cpp:496-539 | over any number of attempts and openings no original is lost and nothing in quarantine changes |
| `MessageReporter.WireRead` | packages/lab-support/include/lab_support/message_observation.hpp:13-37 | a generated datagram is read back as the request it is |
| `MessageReporter.MessageIdsDiffer` | packages/lab-support/include/lab_support/message_observation.hpp:32-37 | different numbers or epochs give different identifiers |
| `MessageReporter.Reporter.constructor` | packages/lab-support/include/lab_support/message_observation.hpp:31 | nothing observed yet |
| `MessageReporter.Reporter.Datagram` | packages/lab-support/include/lab_support/message_observation.hpp:32-37 | 53 bytes carrying the next identifier |
| `MessageReporter.Reporter.Observe` | packages/lab-support/include/lab_support/message_observation.hpp:38-52 | records exactly the datagrams with an identifier; the ring is the last eight observations |
| `MessageReporter.Reporter.MakeReport` | packages/lab-support/include/lab_support/message_observation.hpp:53-61 | total, evicted and events describe the whole log |
| `MessageHistory.Validate` | cpp/messages/history.cpp:62-94 | accepts exactly windows of consecutive, well-formed events with a clock that does not go back |
| `MessageHistory.ReportFitsLimit` | cpp/messages/history.cpp:62-64 | the limit on the serialised report refuses nothing that the other rules accept |
| `MessageHistory.HonestReportOk` | cpp/messages/history.cpp:62-94 | every report of a reporter is accepted |
| `MessageHistory.NewSequences` | cpp/messages/history.cpp:169-194 | the rows inserted for a report carry every number it counts above both the counter and the evictions, each once |
| `MessageHistory.Conserved` | cpp/messages/history.cpp:166-219 | what a reporter counted is what was missed and what was stored at some time |
| `MessageHistory.Prune` | cpp/messages/history.cpp:133-144 | leaves exactly the recent ones of the latest rows that fit, in order |
| `MessageHistory.AddEvents` | cpp/messages/history.cpp:169-194 | events already counted are compared, the others appended |
| `MessageHistory.CountRetained` | cpp/messages/history.cpp:300-305 | counts the recent rows of a source |
| `MessageHistory.ExpiredOrPrunedNatural` | cpp/messages/history.cpp:300-317 | the reported number of expired or pruned messages is never negative |
| `MessageHistory.Collector.constructor` | cpp/messages/history.cpp:100-132 | empty tables |
| `MessageHistory.Collector.Ingest` | cpp/messages/history.cpp:148-219 | succeeds exactly for valid, not regressed, not conflicting reports with room for their source; then the counter is the total, the numbers ever stored grow by exactly those of the inserted rows, all of them new; a failure changes nothing, and a reporter's own report never conflicts |
| `MessageHistory.Collector.Retain` | cpp/messages/history.cpp:244-252 | retention keeps the accounting |
| `MessageHistory.Collector.Lifetime` | cpp/messages/history.cpp:148-219 | over any observations and any deliveries: high equals missed plus the number of messages ever inserted, and what was pruned does not return; if all deliveries are reporters' own reports, lost, repeated or late, every stored event is the reporter's event of that number |
| `MessageHistory.IngestFaithful` | cpp/messages/history.cpp:169-178 | a genuine report, however late, conflicts with nothing and adds genuine rows |
| `WriterLease.Lease.constructor` | cpp/terminal/recording.cpp:29-52 | nobody holds the lease |
| `WriterLease.Lease.Acquire` | cpp/terminal/recording.cpp:29-39 | succeeds exactly for a valid owner when the lease is free, expired or taken over; every earlier token is spent |
| `WriterLease.Lease.Renew` | cpp/terminal/recording.cpp:40-48 | succeeds exactly for the current holder before expiry |
| `WriterLease.Lease.Revoke` | cpp/terminal/recording.cpp:49-53 | every token handed out is spent |
| `WriterLease.Lease.Lifetime` | cpp/terminal/recording.cpp:29-52 | a token that expired, was taken over or revoked is never accepted again |
| `Workers.NoSupersededCommand` | cpp/terminal/worker.cpp:345-354 | no command of a controller takes effect after another one was adopted |
| `Workers.VmWorker.constructor` | cpp/terminal/worker.cpp:159-170 | the machine starts paused and not leased |
| `Workers.VmWorker.End` | cpp/terminal/worker.cpp:430-455 | a forked machine dies with its worker, a machine in a container is left as it is |
| `Workers.VmWorker.Watch` | qemu-runners/cpp-runner/main.cpp:62-72 | the watchdog of the container kills the machine five seconds after the last heartbeat, or ten after the start without any |
| `Workers.VmWorker.Pause` | cpp/terminal/worker.cpp:214-222 | succeeds exactly when the stop was sent, took effect, was confirmed and recorded; the lease ends only with the confirmation |
| `Workers.VmWorker.Tick` | cpp/terminal/worker.cpp:224-242 | the heartbeat of a container is renewed; an expired lease pauses the machine, or ends the worker when that fails |
| `Workers.VmWorker.Accede` | cpp/terminal/worker.cpp:345-354 | the generation is taken over and the writer revoked before the pause; success leaves the machine paused |
| `Workers.VmWorker.Perform` | cpp/terminal/worker.cpp:355-372 | release leases before it continues the machine; renewal needs a lease that has not expired; close ends the worker |
| `Workers.VmWorker.Handle` | cpp/terminal/worker.cpp:345-372 | a stale request changes nothing; an adoption needs a greater generation and revokes the writer; a successful one leaves the machine paused |
| `Workers.VmWorker.Lifetime` | cpp/terminal/worker.cpp:214-455 | over any requests of any controllers and an end at any time: generations never fall; while the worker is there a running machine is leased and was released under the last successful adoption or later; afterwards only a machine in a container that ran at the end runs on, within its watchdog; an expired lease is not renewed until a release |
| `Workers.ClosedWorkerLeavesMachine` | cpp/terminal/worker.cpp:430-431 | a machine in a container that runs when its worker is closed runs on without worker and lease |
| `Workers.ExpiredLeaseLeavesMachine` | cpp/terminal/worker.cpp:238-242 | the same when its lease expires and the pause fails |
| `Workers.CaptureControl.constructor` | cpp/capture/worker.cpp:235-254 | no command yet |
| `Workers.CaptureControl.Handle` | cpp/capture/worker.cpp:235-254 | a stale request changes nothing, adoption needs a greater generation |
| `Histogram.Validate` | packages/lab-support/cpp/application_telemetry.cpp:72-96 | accepts exactly when some integer samples fall into those buckets with that sum and count, and there were as many messages |
| `Histogram.Accumulate` | packages/lab-support/cpp/application_telemetry.cpp:79-88 | the loop computes count, minimum and maximum, unless the count does not fit a word |
| `Histogram.Explained` | packages/lab-support/cpp/application_telemetry.cpp:72-96 | such samples exist exactly when the sum lies within the bounds of the buckets |
| `Histogram.SamplesExist` | packages/lab-support/cpp/application_telemetry.cpp:72-96 | samples can be built for every sum within the bounds |
| `Histogram.SamplesWithin` | packages/lab-support/cpp/application_telemetry.cpp:72-96 | any samples have a sum within the bounds of their buckets |
| `Histogram.Percentile` | packages/lab-support/cpp/application_telemetry.cpp:157-176 | the scan finds the first bucket whose cumulative count reaches the rank |
| `Histogram.PercentileExact` | packages/lab-support/cpp/application_telemetry.cpp:157-176 | for any samples behind the histogram the one of that rank lies in the reported bucket |
| `Histogram.Meter.constructor` | packages/lab-support/cpp/lifecycle.cpp:178-184 | all counters are zero |
| `Histogram.Meter.Serve` | packages/lab-support/cpp/lifecycle.cpp:228-255 | every message is received, and measured if it was answered |
| `Histogram.Meter.Record` | packages/lab-support/cpp/lifecycle.cpp:272-283 | count, sum and buckets describe the samples so far |
| `Histogram.Meter.Report` | packages/lab-support/cpp/lifecycle.cpp:431-456 | a node's own histogram always passes against its own message counter |

## Left out

- Engine.Engine.Lifetime: no termination or progress is claimed for jobs, only what holds at every moment.
- Scheduling.Kahn: which missing dependency is named in the error is not modelled.
- Validation.Validate: error messages and the order of checks are not modelled, and the digest of the lock is a field of the document.
- Histogram.Validate: bounds are exact integers where the original accumulates `long double`.
- MessageHistory.HonestReportOk: counters and clocks are below 10^18, as the report's numbers require.
- CaptureWriter.Writer.Close: the SHA-256 of a segment is not modelled, nor are failing writes of the capture writer; `PcapngTheorems.DamageKeepsPrefix` covers what the scanner makes of their remains.
- Recording.TornThenRefused: a record torn later than in its kind may be read together with the next one; the outcome then depends on the bytes and is not classified.
- IndexRecovery.Directory.Recover: file operations take effect in order; loss of unsynchronised directory entries at a power failure is not modelled, nor are symbolic links.
- PacketPaging.Query: the scope of a cursor is its run and filter rather than their digest.
- Workers.VmWorker.Handle: generations are numbers rather than decimal strings; terminal input, resize and replay requests change nothing modelled here.
- Workers.VmWorker.Watch: the watchdog looks at every step of the model rather than every 100 milliseconds.
- Backend internals: Docker, Open vSwitch, systemd, netlink and QMP calls appear only as effects on the world.
- Console, HTTP, RPC framing, sessions and the user interface.
- SQLite, JSON, YAML, regular expressions, SHA-256, base64: tables and records are values, digests are abstract or omitted.
- Field-by-field schema checks of topologies, of artifact locks and of the contracts in them.
- Process logs, application telemetry storage and the metrics store: variations of the message and packet stores.
- 64-bit wrap-around of byte counters and file sizes of 2^63 or more.
- Rates and means of telemetry: floating-point divisions.
- Real-time deadlines of socket input and output, and the socket loop of the node.
- Qualification programs, guest images and tests.
