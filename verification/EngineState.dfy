/** The journal of the execution engine, the outside world it acts on, and the
    admission decision of its request handler. */
module EngineState {

  type RunId = nat
  type JobId = nat
  type FaultId = nat
  type CaptureId = nat
  type Key = nat
  type Digest = nat

  /** Resource keys, in the three classes that a run creates in this order. */
  datatype ResourceKey = Network(name: nat) | Node(name: nat) | Edge(name: nat) {
    function Rank(): nat {
      match this
      case Network(_) => 0
      case Node(_) => 1
      case Edge(_) => 2
    }
  }

  datatype Topology = Topology(networks: seq<nat>, nodes: seq<nat>, guests: set<nat>, edges: seq<nat>, captured: bool)

  /** `resources`: every management network, then every node, then every edge. */
  function Resources(t: Topology): (r: seq<ResourceKey>)
    ensures |r| == |t.networks| + |t.nodes| + |t.edges|
    ensures forall i, j :: 0 <= i <= j < |r| ==> r[i].Rank() <= r[j].Rank()
  {
    seq(|t.networks|, i requires 0 <= i < |t.networks| => Network(t.networks[i]))
    + seq(|t.nodes|, i requires 0 <= i < |t.nodes| => Node(t.nodes[i]))
    + seq(|t.edges|, i requires 0 <= i < |t.edges| => Edge(t.edges[i]))
  }

  datatype Stage = Intent | Prepared | Removed

  datatype Resource = Resource(key: ResourceKey, stage: Stage)

  datatype FaultState = FaultQueued | Applying | Active | Removing | FaultRemoved | FaultCancelled | RecoveryRequired

  predicate Live(s: FaultState) {
    s != FaultRemoved && s != FaultCancelled
  }

  /** A netem fault on one direction of one edge. */
  datatype Fault = Fault(edge: nat, forward: bool, state: FaultState)

  datatype RunState = Preparing | Armed | Converging | Ready | Stopped | Reconciling | Destroying | Compensating | Destroyed

  datatype Coverage = Pending | Unavailable | ArmedCoverage | Recording | Incomplete | Closed | ClosedIncomplete | Interrupted

  datatype Run = Run(
    state: RunState,
    topology: Topology,
    resources: seq<Resource>,
    captures: seq<CaptureId>,
    history: seq<CaptureId>,
    epoch: nat,
    coverage: Coverage,
    generation: nat,
    revision: nat,
    faults: map<FaultId, Fault>)

  datatype Operation = Start | Stop | Resume | Destroy | Recover | FaultApply(fault: FaultId) | FaultRemove(fault: FaultId)

  datatype JobState = Queued | Running | Succeeded | Failed | Cancelled

  datatype Job = Job(run: RunId, operation: Operation, state: JobState, cancelRequested: bool, revision: nat)

  predicate PendingJob(j: Job) {
    j.state == Queued || j.state == Running
  }

  datatype Receipt = Receipt(digest: Digest, job: JobId)

  datatype Journal = Journal(runs: map<RunId, Run>, jobs: map<JobId, Job>, keys: map<Key, Receipt>)

  const MAX_JOBS := 256
  const MAX_FAULTS := 256

  // ----- well-formed journals -----

  /** The resources of a run are a prefix of its plan, and only a captured run has workers. */
  ghost predicate RunOk(r: Run) {
    && |r.resources| <= |Resources(r.topology)|
    && (forall i :: 0 <= i < |r.resources| ==> r.resources[i].key == Resources(r.topology)[i])
    && (!r.topology.captured ==> r.captures == [])
  }

  ghost predicate JobsOk(j: Journal) {
    && (forall x :: x in j.jobs ==> j.jobs[x].run in j.runs)
    && (forall x :: x in j.jobs && (j.jobs[x].operation.FaultApply? || j.jobs[x].operation.FaultRemove?) ==>
          j.jobs[x].operation.fault in j.runs[j.jobs[x].run].faults)
    && (forall x :: x in j.jobs && j.jobs[x].operation.FaultApply? && j.jobs[x].state == Queued ==>
          j.runs[j.jobs[x].run].faults[j.jobs[x].operation.fault].state == FaultQueued)
    && (forall x :: x in j.jobs && j.jobs[x].operation == Start && j.jobs[x].state == Queued ==>
          j.runs[j.jobs[x].run].resources == [])
    && (forall x, y :: x in j.jobs && y in j.jobs && PendingJob(j.jobs[x]) && PendingJob(j.jobs[y]) ==> x == y)
  }

  /** Idempotency keys and jobs correspond one to one, and there are at most 256. */
  ghost predicate KeysOk(jobs: map<JobId, Job>, keys: map<Key, Receipt>) {
    && (forall k :: k in keys ==> keys[k].job in jobs)
    && (forall k, l :: k in keys && l in keys && keys[k].job == keys[l].job ==> k == l)
    && (forall x :: x in jobs ==> exists k :: k in keys && keys[k].job == x)
    && |keys| == |jobs| <= MAX_JOBS
  }

  ghost predicate Consistent(j: Journal) {
    && (forall r :: r in j.runs ==> RunOk(j.runs[r]))
    && JobsOk(j)
    && KeysOk(j.jobs, j.keys)
  }

  predicate Busy(j: Journal) {
    exists x :: x in j.jobs && PendingJob(j.jobs[x])
  }

  // ----- the world -----

  /** What exists outside the agent: prepared resources, capture workers and netem qdiscs. */
  datatype World = World(resources: set<(RunId, ResourceKey)>, workers: set<(RunId, CaptureId)>, qdiscs: set<(RunId, FaultId)>)

  ghost predicate HasResource(r: Run, k: ResourceKey) {
    exists i :: 0 <= i < |r.resources| && r.resources[i].key == k && r.resources[i].stage != Removed
  }

  /** The fault is live and its application has at least been announced. */
  ghost predicate HasFault(r: Run, f: FaultId) {
    f in r.faults && Live(r.faults[f].state) && r.faults[f].state != FaultQueued
  }

  /** Everything of run `id` that exists is on record in `r`. */
  ghost predicate RunCovers(w: World, id: RunId, r: Run) {
    && (forall k :: (id, k) in w.resources ==> HasResource(r, k))
    && (forall c :: (id, c) in w.workers ==> c in r.captures)
    && (forall f :: (id, f) in w.qdiscs ==> HasFault(r, f))
  }

  ghost predicate Covered(w: World, j: Journal) {
    && (forall x :: x in w.resources ==> x.0 in j.runs)
    && (forall x :: x in w.workers ==> x.0 in j.runs)
    && (forall x :: x in w.qdiscs ==> x.0 in j.runs)
    && (forall id :: id in j.runs ==> RunCovers(w, id, j.runs[id]))
  }

  /** Nothing of run `id` exists. */
  ghost predicate Gone(w: World, id: RunId) {
    && (forall k :: (id, k) !in w.resources)
    && (forall c :: (id, c) !in w.workers)
    && (forall f :: (id, f) !in w.qdiscs)
  }

  lemma SetRunCovers(w: World, j: Journal, id: RunId, r: Run)
    requires Covered(w, j) && id in j.runs && RunCovers(w, id, r)
    ensures Covered(w, j.(runs := j.runs[id := r]))
  {
    hide RunCovers;
  }

  /** Changing anything but a run's resources, captures and faults keeps its cover. */
  lemma SameRecordsCover(w: World, id: RunId, a: Run, b: Run)
    requires RunCovers(w, id, a)
    requires a.resources == b.resources && a.captures == b.captures && a.faults == b.faults
    ensures RunCovers(w, id, b)
  {
    forall k | (id, k) in w.resources ensures HasResource(b, k) {
      assert HasResource(a, k);
    }
    forall f | (id, f) in w.qdiscs ensures HasFault(b, f) {
      assert HasFault(a, f);
    }
  }

  /** What a waiting job relies on stays: its run's resources, and its fault in state queued. */
  ghost predicate KeepsWaiting(a: Run, b: Run) {
    && a.resources == b.resources
    && a.faults.Keys <= b.faults.Keys
    && (forall f :: f in a.faults && a.faults[f].state == FaultQueued ==> b.faults[f].state == FaultQueued)
  }

  ghost predicate NoneWaiting(j: Journal) {
    forall x :: x in j.jobs ==> j.jobs[x].state != Queued
  }

  lemma SetRunConsistent(j: Journal, id: RunId, r: Run)
    requires Consistent(j) && id in j.runs && RunOk(r) && j.runs[id].faults.Keys <= r.faults.Keys
    requires KeepsWaiting(j.runs[id], r) || NoneWaiting(j)
    ensures Consistent(j.(runs := j.runs[id := r]))
  {
    hide RunOk, KeysOk;
  }

  // ----- admission -----

  datatype Request = StartRun(topology: Topology, acceptable: bool)
                   | Operate(run: RunId, operation: Operation, expected: nat)
                   | ApplyFault(run: RunId, edge: nat, forward: bool, valid: bool, expected: nat)
                   | RemoveFault(run: RunId, fault: FaultId, expected: nat)

  datatype Error = NotFound | IdempotencyConflict | JobCapacity | OperationInProgress | ActiveRunExists
                 | StartRefused | StaleRevision | UnsupportedOperation | InvalidRunState | FaultRunUnavailable
                 | FaultCapacity | FaultInvalid | FaultDirectionBusy | FaultNotFound

  datatype FreshIds = FreshIds(run: RunId, job: JobId, fault: FaultId)

  datatype Decision = Reject(error: Error) | Existing(job: JobId) | Accept(run: RunId, record: Run, operation: Operation)

  function NewRun(t: Topology): Run {
    Run(Preparing, t, [], [], [], 0, if t.captured then Pending else Unavailable, 1, 1, map[])
  }

  function WithJob(j: Journal, key: Key, digest: Digest, id: JobId, job: Job): Journal {
    j.(jobs := j.jobs[id := job], keys := j.keys[key := Receipt(digest, id)])
  }

  predicate DirectionBusy(r: Run, edge: nat, forward: bool) {
    exists f :: f in r.faults && Live(r.faults[f].state) && r.faults[f].edge == edge && r.faults[f].forward == forward
  }

  function Bumped(r: Run): Run {
    r.(revision := r.revision + 1)
  }

  function AdmitStart(j: Journal, q: Request, ids: FreshIds): (d: Decision)
    requires q.StartRun?
    ensures !d.Existing?
  {
    if |j.jobs| >= MAX_JOBS then Reject(JobCapacity)
    else if Busy(j) then Reject(OperationInProgress)
    else if exists r :: r in j.runs && j.runs[r].state != Destroyed then Reject(ActiveRunExists)
    else if !q.acceptable then Reject(StartRefused)
    else
      Accept(ids.run, NewRun(q.topology), Start)
  }

  function AdmitOperate(j: Journal, q: Request): (d: Decision)
    requires q.Operate?
    ensures !d.Existing?
  {
    if |j.jobs| >= MAX_JOBS then Reject(JobCapacity)
    else if Busy(j) then Reject(OperationInProgress)
    else if q.run !in j.runs then Reject(NotFound)
    else
      var r := j.runs[q.run];
      if q.expected != r.revision then Reject(StaleRevision)
      else if q.operation !in {Stop, Resume, Destroy, Recover} then Reject(UnsupportedOperation)
      else if q.operation == Stop && r.state != Ready && r.state != Stopped then Reject(InvalidRunState)
      else if q.operation == Resume && r.state != Stopped then Reject(InvalidRunState)
      else
        Accept(q.run, Bumped(r), q.operation)
  }

  function AdmitFault(j: Journal, q: Request, ids: FreshIds): (d: Decision)
    requires (q.ApplyFault? || q.RemoveFault?) && q.run in j.runs
    ensures !d.Existing?
  {
    var r := j.runs[q.run];
    if q.expected != r.revision then Reject(StaleRevision)
    else if Busy(j) then Reject(OperationInProgress)
    else if |j.jobs| >= MAX_JOBS then Reject(JobCapacity)
    else if q.ApplyFault? then
      if r.state != Ready && r.state != Stopped then Reject(FaultRunUnavailable)
      else if |r.faults| >= MAX_FAULTS then Reject(FaultCapacity)
      else if !q.valid then Reject(FaultInvalid)
      else if DirectionBusy(r, q.edge, q.forward) then Reject(FaultDirectionBusy)
      else
        Accept(q.run, Bumped(r).(faults := r.faults[ids.fault := Fault(q.edge, q.forward, FaultQueued)]), FaultApply(ids.fault))
    else if q.fault !in r.faults then Reject(FaultNotFound)
    else
      Accept(q.run, Bumped(r), FaultRemove(q.fault))
  }

  /** The request handler's decision: a known key answers with its own job, or
      conflicts when the request differs. */
  function Decide(j: Journal, key: Key, digest: Digest, q: Request, ids: FreshIds): (d: Decision)
  {
    if (q.ApplyFault? || q.RemoveFault?) && q.run !in j.runs then Reject(NotFound)
    else if key in j.keys then
      if j.keys[key].digest != digest then Reject(IdempotencyConflict) else Existing(j.keys[key].job)
    else
      match q
      case StartRun(_, _) => AdmitStart(j, q, ids)
      case Operate(_, _, _) => AdmitOperate(j, q)
      case ApplyFault(_, _, _, _, _) => AdmitFault(j, q, ids)
      case RemoveFault(_, _, _) => AdmitFault(j, q, ids)
  }

  /** The journal after an acceptance: one run added or updated, one queued job, one key. */
  function Applied(j: Journal, key: Key, digest: Digest, id: JobId, d: Decision): Journal
    requires d.Accept?
  {
    WithJob(j.(runs := j.runs[d.run := d.record]), key, digest, id, Job(d.run, d.operation, Queued, false, d.record.revision))
  }

  ghost predicate FreshFor(j: Journal, ids: FreshIds) {
    && ids.run !in j.runs
    && ids.job !in j.jobs
    && (forall r :: r in j.runs ==> ids.fault !in j.runs[r].faults)
  }

  // ----- what the request handler may change under the worker's feet -----

  /** Only the revision may differ, and faults may have been added in state queued. */
  ghost predicate RunAdmits(a: Run, b: Run) {
    && b == a.(revision := b.revision, faults := b.faults)
    && (forall f :: f in a.faults ==> f in b.faults && b.faults[f] == a.faults[f])
    && (forall f :: f in b.faults && f !in a.faults ==> b.faults[f].state == FaultQueued)
  }

  ghost predicate NewlyAdmitted(r: Run) {
    r.state == Preparing && r.resources == [] && r.captures == []
  }

  /** The effect on the journal of any number of requests handled meanwhile. */
  ghost predicate Admits(a: Journal, b: Journal) {
    && (forall r :: r in a.runs ==> r in b.runs && RunAdmits(a.runs[r], b.runs[r]))
    && (forall r :: r in b.runs && r !in a.runs ==> NewlyAdmitted(b.runs[r]))
    && (forall x :: x in a.jobs ==>
          x in b.jobs && b.jobs[x] == a.jobs[x].(cancelRequested := b.jobs[x].cancelRequested))
    && (forall x :: x in b.jobs && x !in a.jobs ==> b.jobs[x].state == Queued && !Busy(a))
    && (forall k :: k in a.keys ==> k in b.keys && b.keys[k] == a.keys[k])
    && (Busy(a) ==> forall r :: r in a.runs ==> b.runs[r].faults == a.runs[r].faults)
  }

  lemma AdmitsReflexive(a: Journal)
    ensures Admits(a, a)
  {
  }

  lemma RunAdmitsTransitive(a: Run, b: Run, c: Run)
    requires RunAdmits(a, b) && RunAdmits(b, c)
    ensures RunAdmits(a, c)
  {
  }

  lemma BusyStays(a: Journal, b: Journal)
    requires Admits(a, b) && Busy(a)
    ensures Busy(b)
  {
    hide RunAdmits, NewlyAdmitted;
    var x :| x in a.jobs && PendingJob(a.jobs[x]);
    assert PendingJob(b.jobs[x]);
  }

  lemma AdmitsTransitive(a: Journal, b: Journal, c: Journal)
    requires Admits(a, b) && Admits(b, c)
    ensures Admits(a, c)
  {
    if Busy(a) {
      BusyStays(a, b);
    }
    hide RunAdmits, Busy;
    forall r | r in a.runs ensures r in c.runs && RunAdmits(a.runs[r], c.runs[r]) {
      RunAdmitsTransitive(a.runs[r], b.runs[r], c.runs[r]);
    }
    forall r | r in c.runs && r !in a.runs ensures NewlyAdmitted(c.runs[r]) {
      if r in b.runs {
        NewStaysNew(b.runs[r], c.runs[r]);
      }
    }
  }

  lemma NewStaysNew(a: Run, b: Run)
    requires RunAdmits(a, b) && NewlyAdmitted(a)
    ensures NewlyAdmitted(b)
  {
  }

  /** Nothing that exists loses its cover while requests are being admitted. */
  lemma AdmitsCovers(w: World, a: Journal, b: Journal)
    requires Admits(a, b) && Covered(w, a)
    ensures Covered(w, b)
  {
    forall id | id in b.runs ensures RunCovers(w, id, b.runs[id]) {
      if id in a.runs {
        RunAdmitsCovers(w, id, a.runs[id], b.runs[id]);
      }
    }
  }

  lemma RunAdmitsCovers(w: World, id: RunId, a: Run, b: Run)
    requires RunAdmits(a, b) && RunCovers(w, id, a)
    ensures RunCovers(w, id, b)
  {
    forall k | (id, k) in w.resources ensures HasResource(b, k) {
      assert HasResource(a, k);
    }
    forall f | (id, f) in w.qdiscs ensures HasFault(b, f) {
      assert HasFault(a, f);
    }
  }

  lemma CardinalityAdd<K, V>(m: map<K, V>, k: K, v: V)
    requires k !in m
    ensures |m[k := v]| == |m| + 1
  {
    assert m[k := v].Keys == m.Keys + {k};
  }

  /** Adding a job under a fresh key and a fresh identifier keeps keys and jobs in step. */
  lemma WithJobKeys(j: Journal, key: Key, digest: Digest, id: JobId, job: Job)
    requires KeysOk(j.jobs, j.keys) && key !in j.keys && id !in j.jobs && |j.jobs| < MAX_JOBS
    ensures KeysOk(WithJob(j, key, digest, id, job).jobs, WithJob(j, key, digest, id, job).keys)
  {
    var n := WithJob(j, key, digest, id, job);
    CardinalityAdd(j.jobs, id, job);
    CardinalityAdd(j.keys, key, Receipt(digest, id));
    forall x | x in n.jobs ensures exists k :: k in n.keys && n.keys[k].job == x {
      if x == id {
        assert key in n.keys && n.keys[key].job == x;
      } else {
        var k :| k in j.keys && j.keys[k].job == x;
        assert k in n.keys && n.keys[k].job == x;
      }
    }
  }

  /** Requests are only accepted under a new key, while no job is pending and there is room. */
  lemma AcceptMeans(j: Journal, key: Key, digest: Digest, q: Request, ids: FreshIds)
    requires FreshFor(j, ids) && Decide(j, key, digest, q, ids).Accept?
    ensures var d := Decide(j, key, digest, q, ids);
            && key !in j.keys && !Busy(j) && |j.jobs| < MAX_JOBS
            && (if d.run in j.runs then RunAdmits(j.runs[d.run], d.record) else d.record == NewRun(d.record.topology))
            && (d.operation.FaultApply? || d.operation.FaultRemove? ==> d.operation.fault in d.record.faults)
            && (d.operation == Start ==> d.record.resources == [])
            && (d.operation.FaultApply? ==> d.record.faults[d.operation.fault].state == FaultQueued)
  {
  }

  lemma AppliedAdmits(j: Journal, key: Key, digest: Digest, id: JobId, d: Decision)
    requires d.Accept? && key !in j.keys && id !in j.jobs && !Busy(j)
    requires if d.run in j.runs then RunAdmits(j.runs[d.run], d.record) else d.record == NewRun(d.record.topology)
    ensures Admits(j, Applied(j, key, digest, id, d))
  {
  }

  lemma AppliedJobs(j: Journal, key: Key, digest: Digest, id: JobId, d: Decision)
    requires JobsOk(j) && d.Accept? && id !in j.jobs && !Busy(j)
    requires d.run in j.runs ==> j.runs[d.run].faults.Keys <= d.record.faults.Keys
    requires d.operation.FaultApply? || d.operation.FaultRemove? ==> d.operation.fault in d.record.faults
    requires d.operation.FaultApply? ==> d.record.faults[d.operation.fault].state == FaultQueued
    requires d.operation == Start ==> d.record.resources == []
    ensures JobsOk(Applied(j, key, digest, id, d))
  {
  }

  lemma AppliedConsistent(j: Journal, key: Key, digest: Digest, id: JobId, d: Decision)
    requires Consistent(j) && d.Accept? && key !in j.keys && id !in j.jobs && !Busy(j) && |j.jobs| < MAX_JOBS
    requires if d.run in j.runs then RunAdmits(j.runs[d.run], d.record) else d.record == NewRun(d.record.topology)
    requires d.operation.FaultApply? || d.operation.FaultRemove? ==> d.operation.fault in d.record.faults
    requires d.operation.FaultApply? ==> d.record.faults[d.operation.fault].state == FaultQueued
    requires d.operation == Start ==> d.record.resources == []
    ensures Consistent(Applied(j, key, digest, id, d))
  {
    if d.run in j.runs {
      RecordOk(j.runs[d.run], d.record);
    }
    assert RunOk(d.record);
    hide RunOk, Resources, Busy, KeysOk, JobsOk;
    AppliedJobs(j, key, digest, id, d);
    var m := j.(runs := j.runs[d.run := d.record]);
    WithJobKeys(m, key, digest, id, Job(d.run, d.operation, Queued, false, d.record.revision));
  }

  lemma RecordOk(a: Run, b: Run)
    requires RunOk(a) && RunAdmits(a, b)
    ensures RunOk(b) && a.faults.Keys <= b.faults.Keys
  {
    hide Resources;
  }
}
