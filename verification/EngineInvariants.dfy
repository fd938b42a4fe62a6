/** What the engine keeps true of its memory, its disk and the world between any
    two statements, and how single changes preserve it. */
module EngineInvariants {
  import opened EngineState
  import opened EngineTrace

  /** A job that was ever started is on record and no longer queued. */
  ghost predicate StartsKnown(t: seq<Effect>, j: Journal) {
    forall x :: JobStarted(x) in t ==> x in j.jobs && j.jobs[x].state != Queued
  }

  /** What a requester was told: the job its key stands for, and the run of that job. */
  datatype Ack = Ack(digest: Digest, job: JobId, run: RunId)

  /** Every acknowledged admission is on record under its key. */
  ghost predicate Remembers(acked: map<Key, Ack>, j: Journal) {
    forall k :: k in acked ==>
      && k in j.keys && j.keys[k] == Receipt(acked[k].digest, acked[k].job)
      && acked[k].job in j.jobs && j.jobs[acked[k].job].run == acked[k].run
  }

  /** Nothing that was acknowledged is taken back. */
  ghost predicate Grown(a: map<Key, Ack>, b: map<Key, Ack>) {
    forall k :: k in a ==> k in b && b[k] == a[k]
  }

  lemma GrownTransitive(a: map<Key, Ack>, b: map<Key, Ack>, c: map<Key, Ack>)
    requires Grown(a, b) && Grown(b, c)
    ensures Grown(a, c)
  {
  }

  lemma KeyHasJob(j: Journal, k: Key)
    requires Consistent(j) && k in j.keys
    ensures j.keys[k].job in j.jobs && j.jobs[j.keys[k].job].run in j.runs
  {
    hide RunOk;
  }

  /** Whatever has happened since, asking again with an acknowledged key and the same request
      answers with the same job, and with a different request is refused. A repeated fault
      request names the run of its job, which is still there. */
  lemma ResubmissionReturnsSameJob(w: World, t: seq<Effect>, acked: map<Key, Ack>, j: Journal, key: Key, digest: Digest,
                                   q: Request, ids: FreshIds)
    requires Recorded(w, t, acked, j) && key in acked
    ensures (q.ApplyFault? || q.RemoveFault?) ==> acked[key].run in j.runs
    ensures ((q.ApplyFault? || q.RemoveFault?) ==> q.run == acked[key].run) ==>
              Decide(j, key, digest, q, ids)
              == if acked[key].digest == digest then Existing(acked[key].job) else Reject(IdempotencyConflict)
  {
    hide Covered, StartsKnown, RunOk;
    KeyHasJob(j, key);
  }

  /** All acknowledgements that the journal bears out. */
  ghost function AcksOf(j: Journal): map<Key, Ack>
    requires forall k :: k in j.keys ==> j.keys[k].job in j.jobs
  {
    map k | k in j.keys :: Ack(j.keys[k].digest, j.keys[k].job, j.jobs[j.keys[k].job].run)
  }

  ghost predicate Recorded(w: World, t: seq<Effect>, acked: map<Key, Ack>, j: Journal) {
    Covered(w, j) && Consistent(j) && StartsKnown(t, j) && Remembers(acked, j)
  }

  /** Every run that is ready, apart from those being worked on, has healthy captures. */
  ghost predicate Attended(t: seq<Effect>, j: Journal, except: set<RunId>) {
    forall r :: r in j.runs && r !in except && j.runs[r].state == Ready && j.runs[r].topology.captured ==>
      GuardOf(t, r) == HealthyAt(j.runs[r].epoch)
  }

  /** The effect says nothing about the captures of runs outside `except`. */
  predicate Spares(e: Effect, except: set<RunId>) {
    match e
    case Restarted => false
    case ArmCall(r, _, _) => r in except
    case StopCall(r, _) => r in except
    case StatusCall(r, _) => r in except
    case _ => true
  }

  lemma RecordedAdmits(w: World, t: seq<Effect>, acked: map<Key, Ack>, a: Journal, b: Journal)
    requires Recorded(w, t, acked, a) && Admits(a, b) && Consistent(b)
    ensures Recorded(w, t, acked, b)
  {
    hide Covered, Consistent, Admits, StartsKnown, Remembers;
    AdmitsCovers(w, a, b);
    KnownAdmits(t, acked, a, b);
  }

  lemma KnownAdmits(t: seq<Effect>, acked: map<Key, Ack>, a: Journal, b: Journal)
    requires StartsKnown(t, a) && Remembers(acked, a) && Admits(a, b)
    ensures StartsKnown(t, b) && Remembers(acked, b)
  {
    hide RunAdmits, NewlyAdmitted, Busy;
  }

  lemma AttendedAdmits(t: seq<Effect>, a: Journal, b: Journal, except: set<RunId>)
    requires Attended(t, a, except) && Admits(a, b)
    ensures Attended(t, b, except)
  {
    hide Busy, GuardOf;
    forall r | r in b.runs && r !in except && b.runs[r].state == Ready && b.runs[r].topology.captured
      ensures GuardOf(t, r) == HealthyAt(b.runs[r].epoch)
    {
      if r in a.runs {
        assert RunAdmits(a.runs[r], b.runs[r]);
      }
    }
  }

  lemma AttendedEffect(t: seq<Effect>, e: Effect, j: Journal, except: set<RunId>)
    requires SafeTrace(t) && Permitted(t, e) && Spares(e, except) && Attended(t, j, except)
    ensures Attended(t + [e], j, except) && SafeTrace(t + [e])
  {
    TraceStep(t, e);
    hide GuardOf, Permitted, SafeTrace;
  }

  lemma StartsKnownEffect(t: seq<Effect>, e: Effect, j: Journal)
    requires StartsKnown(t, j) && !e.JobStarted?
    ensures StartsKnown(t + [e], j)
  {
  }

  lemma RecordedEffect(w: World, t: seq<Effect>, e: Effect, acked: map<Key, Ack>, j: Journal)
    requires Recorded(w, t, acked, j) && !e.JobStarted?
    ensures Recorded(w, t + [e], acked, j)
  {
    hide Covered, Consistent, Remembers;
    StartsKnownEffect(t, e, j);
  }

  lemma RecordedRun(w: World, t: seq<Effect>, acked: map<Key, Ack>, j: Journal, id: RunId, r: Run)
    requires Recorded(w, t, acked, j) && id in j.runs
    requires RunCovers(w, id, r) && RunOk(r) && j.runs[id].faults.Keys <= r.faults.Keys
    requires KeepsWaiting(j.runs[id], r) || NoneWaiting(j)
    ensures Recorded(w, t, acked, j.(runs := j.runs[id := r]))
  {
    SetRunCovers(w, j, id, r);
    SetRunConsistent(j, id, r);
    hide Covered, Consistent, RunCovers, RunOk, KeepsWaiting, NoneWaiting;
  }

  lemma AttendedRun(t: seq<Effect>, j: Journal, id: RunId, r: Run, except: set<RunId>)
    requires Attended(t, j, except) && id in j.runs
    requires id in except || r.state != Ready || (id !in except && j.runs[id].state == Ready && r.epoch == j.runs[id].epoch && r.topology == j.runs[id].topology)
    ensures Attended(t, j.(runs := j.runs[id := r]), except)
  {
    hide GuardOf;
  }

  /** Once a run is not ready, or is known healthy, it no longer needs an exception. */
  lemma AttendedAgain(t: seq<Effect>, j: Journal, id: RunId, except: set<RunId>)
    requires Attended(t, j, except + {id}) && id in j.runs
    requires j.runs[id].state == Ready && j.runs[id].topology.captured ==> GuardOf(t, id) == HealthyAt(j.runs[id].epoch)
    ensures Attended(t, j, except)
  {
    hide GuardOf;
  }

  // ----- changes of the world -----

  function AddResource(w: World, id: RunId, k: ResourceKey): World { w.(resources := w.resources + {(id, k)}) }
  function DropResource(w: World, id: RunId, k: ResourceKey): World { w.(resources := w.resources - {(id, k)}) }
  function AddQdisc(w: World, id: RunId, f: FaultId): World { w.(qdiscs := w.qdiscs + {(id, f)}) }
  function DropQdisc(w: World, id: RunId, f: FaultId): World { w.(qdiscs := w.qdiscs - {(id, f)}) }
  function AddWorkers(w: World, id: RunId, cs: set<CaptureId>): World {
    w.(workers := w.workers + set c | c in cs :: (id, c))
  }
  function DropWorkers(w: World, id: RunId, cs: set<CaptureId>): World {
    w.(workers := w.workers - set c | c in cs :: (id, c))
  }

  /** Less of the world is still covered. */
  lemma CoveredLess(w: World, v: World, j: Journal)
    requires Covered(w, j)
    requires v.resources <= w.resources && v.workers <= w.workers && v.qdiscs <= w.qdiscs
    ensures Covered(v, j)
  {
    forall id | id in j.runs ensures RunCovers(v, id, j.runs[id]) {
      assert RunCovers(w, id, j.runs[id]);
    }
  }

  lemma CoveredResource(w: World, j: Journal, id: RunId, k: ResourceKey)
    requires Covered(w, j) && id in j.runs && HasResource(j.runs[id], k)
    ensures Covered(AddResource(w, id, k), j)
  {
    hide HasResource;
    var v := AddResource(w, id, k);
    forall x | x in j.runs ensures RunCovers(v, x, j.runs[x]) {
      assert RunCovers(w, x, j.runs[x]);
    }
  }

  lemma CoveredQdisc(w: World, j: Journal, id: RunId, f: FaultId)
    requires Covered(w, j) && id in j.runs && HasFault(j.runs[id], f)
    ensures Covered(AddQdisc(w, id, f), j)
  {
    hide HasFault;
    var v := AddQdisc(w, id, f);
    forall x | x in j.runs ensures RunCovers(v, x, j.runs[x]) {
      assert RunCovers(w, x, j.runs[x]);
    }
  }

  lemma CoveredWorkers(w: World, j: Journal, id: RunId, cs: set<CaptureId>)
    requires Covered(w, j) && id in j.runs && forall c :: c in cs ==> c in j.runs[id].captures
    ensures Covered(AddWorkers(w, id, cs), j)
  {
    var v := AddWorkers(w, id, cs);
    forall x | x in j.runs ensures RunCovers(v, x, j.runs[x]) {
      assert RunCovers(w, x, j.runs[x]);
    }
  }

  // ----- changes of one run's records -----

  function SetResource(r: Run, i: nat, stage: Stage): Run
    requires i < |r.resources|
  {
    r.(resources := r.resources[i := r.resources[i].(stage := stage)])
  }

  function AddIntent(r: Run): Run
    requires |r.resources| < |Resources(r.topology)|
  {
    r.(resources := r.resources + [Resource(Resources(r.topology)[|r.resources|], Intent)])
  }

  lemma AddIntentOk(w: World, id: RunId, r: Run)
    requires RunOk(r) && RunCovers(w, id, r) && |r.resources| < |Resources(r.topology)|
    ensures RunOk(AddIntent(r)) && RunCovers(w, id, AddIntent(r))
    ensures HasResource(AddIntent(r), Resources(r.topology)[|r.resources|])
  {
    var n := AddIntent(r);
    hide Resources;
    forall k | (id, k) in w.resources ensures HasResource(n, k) {
      var i :| 0 <= i < |r.resources| && r.resources[i].key == k && r.resources[i].stage != Removed;
      assert n.resources[i] == r.resources[i];
    }
    assert n.resources[|r.resources|].key == Resources(r.topology)[|r.resources|];
  }

  /** A resource that does not exist, or is not being marked removed, may change stage. */
  lemma SetResourceOk(w: World, id: RunId, r: Run, i: nat, stage: Stage)
    requires RunOk(r) && RunCovers(w, id, r) && i < |r.resources|
    requires stage == Removed ==> (id, r.resources[i].key) !in w.resources
    ensures RunOk(SetResource(r, i, stage)) && RunCovers(w, id, SetResource(r, i, stage))
  {
    hide Resources;
    var n := SetResource(r, i, stage);
    forall k | (id, k) in w.resources ensures HasResource(n, k) {
      var m :| 0 <= m < |r.resources| && r.resources[m].key == k && r.resources[m].stage != Removed;
      assert n.resources[m].key == k && n.resources[m].stage != Removed;
    }
  }

  function SetFault(r: Run, f: FaultId, s: FaultState): Run
    requires f in r.faults
  {
    r.(faults := r.faults[f := r.faults[f].(state := s)])
  }

  lemma SetFaultOk(w: World, id: RunId, r: Run, f: FaultId, s: FaultState)
    requires RunOk(r) && RunCovers(w, id, r) && f in r.faults
    requires !Live(s) || s == FaultQueued ==> (id, f) !in w.qdiscs
    ensures RunOk(SetFault(r, f, s)) && RunCovers(w, id, SetFault(r, f, s))
    ensures r.faults.Keys == SetFault(r, f, s).faults.Keys
  {
    hide Resources;
    var n := SetFault(r, f, s);
    forall k | (id, k) in w.resources ensures HasResource(n, k) {
      assert HasResource(r, k);
    }
    forall g | (id, g) in w.qdiscs ensures HasFault(n, g) {
      assert HasFault(r, g);
    }
  }

  /** Captures may be replaced when no worker of the run exists. */
  lemma SetCapturesOk(w: World, id: RunId, r: Run, n: Run)
    requires RunOk(r) && RunCovers(w, id, r) && r.topology.captured
    requires forall c :: (id, c) !in w.workers
    requires n.resources == r.resources && n.faults == r.faults && n.topology == r.topology
    ensures RunOk(n) && RunCovers(w, id, n)
  {
    hide Resources;
    forall k | (id, k) in w.resources ensures HasResource(n, k) {
      assert HasResource(r, k);
    }
    forall f | (id, f) in w.qdiscs ensures HasFault(n, f) {
      assert HasFault(r, f);
    }
  }

  lemma SameRecordsOk(w: World, id: RunId, r: Run, n: Run)
    requires RunOk(r) && RunCovers(w, id, r)
    requires n.resources == r.resources && n.captures == r.captures && n.faults == r.faults && n.topology == r.topology
    ensures RunOk(n) && RunCovers(w, id, n)
  {
    hide Resources;
    SameRecordsCover(w, id, r, n);
  }

  /** A run whose resources are all removed, whose faults are all dead and whose
      workers are stopped has nothing left in the world. */
  lemma NothingLeft(w: World, id: RunId, r: Run)
    requires RunCovers(w, id, r)
    requires forall i :: 0 <= i < |r.resources| ==> r.resources[i].stage == Removed
    requires forall f :: f in r.faults ==> !Live(r.faults[f].state)
    requires forall c :: (id, c) !in w.workers
    ensures Gone(w, id)
  {
  }

  /** With everything from index `i` on removed, only resources of no higher class remain. */
  lemma OnlyLowerLeft(w: World, id: RunId, r: Run, i: nat)
    requires RunOk(r) && RunCovers(w, id, r) && i < |r.resources|
    requires forall m :: i < m < |r.resources| ==> r.resources[m].stage == Removed
    ensures forall k :: (id, k) in w.resources ==> k.Rank() <= r.resources[i].key.Rank()
  {
    hide Resources;
    forall k | (id, k) in w.resources ensures k.Rank() <= r.resources[i].key.Rank() {
      var m :| 0 <= m < |r.resources| && r.resources[m].key == k && r.resources[m].stage != Removed;
      assert m <= i;
    }
  }

  lemma RunFacts(w: World, t: seq<Effect>, acked: map<Key, Ack>, j: Journal, id: RunId)
    requires Recorded(w, t, acked, j) && id in j.runs
    ensures RunCovers(w, id, j.runs[id]) && RunOk(j.runs[id])
  {
    hide RunCovers, RunOk, JobsOk, KeysOk;
  }

  // ----- job states -----

  function WithState(j: Journal, jid: JobId, s: JobState): Journal
    requires jid in j.jobs
  {
    j.(jobs := j.jobs[jid := j.jobs[jid].(state := s)])
  }

  /** Only which jobs exist matters for the correspondence with keys. */
  lemma SameJobKeys(a: map<JobId, Job>, b: map<JobId, Job>, keys: map<Key, Receipt>)
    requires KeysOk(a, keys) && a.Keys == b.Keys
    ensures KeysOk(b, keys)
  {
    assert |a| == |a.Keys| == |b.Keys| == |b|;
    forall y | y in b ensures exists k :: k in keys && keys[k].job == y {
      assert y in a.Keys;
    }
  }

  lemma WithStateJobs(j: Journal, jid: JobId, s: JobState)
    requires JobsOk(j) && jid in j.jobs && s != Queued && (s == Running ==> PendingJob(j.jobs[jid]))
    ensures JobsOk(WithState(j, jid, s))
  {
    var n := WithState(j, jid, s);
    forall y, z | y in n.jobs && z in n.jobs && PendingJob(n.jobs[y]) && PendingJob(n.jobs[z]) ensures y == z {
      assert PendingJob(j.jobs[y]) && PendingJob(j.jobs[z]);
    }
  }

  /** A job may leave the queue, and a pending job may go on running. */
  lemma RecordedJob(w: World, t: seq<Effect>, acked: map<Key, Ack>, j: Journal, jid: JobId, s: JobState)
    requires Recorded(w, t, acked, j) && jid in j.jobs && s != Queued && (s == Running ==> PendingJob(j.jobs[jid]))
    ensures Recorded(w, t, acked, WithState(j, jid, s))
  {
    hide RunCovers, RunOk, KeysOk, JobsOk;
    WithStateJobs(j, jid, s);
    SameJobKeys(j.jobs, WithState(j, jid, s).jobs, j.keys);
  }

  lemma AttendedJobs(t: seq<Effect>, a: Journal, b: Journal, except: set<RunId>)
    requires Attended(t, a, except) && a.runs == b.runs
    ensures Attended(t, b, except)
  {
    hide GuardOf;
  }

  // ----- what watching over faults may change meanwhile -----

  /** Fault states and the revision may change, and the run may need reconciliation. */
  ghost predicate RunTends(a: Run, b: Run) {
    && b == a.(revision := b.revision, faults := b.faults, state := b.state)
    && a.faults.Keys <= b.faults.Keys
    && (b.state == a.state || b.state == Reconciling)
  }

  ghost predicate JobsAdmit(a: Journal, b: Journal) {
    && (forall x :: x in a.jobs ==>
          x in b.jobs && b.jobs[x] == a.jobs[x].(cancelRequested := b.jobs[x].cancelRequested))
    && (forall k :: k in a.keys ==> k in b.keys && b.keys[k] == a.keys[k])
  }

  ghost predicate Tends(a: Journal, b: Journal) {
    JobsAdmit(a, b) && forall r :: r in a.runs ==> r in b.runs && RunTends(a.runs[r], b.runs[r])
  }

  lemma TendsReflexive(a: Journal)
    ensures Tends(a, a)
  {
  }

  lemma AdmitsTends(a: Journal, b: Journal)
    requires Admits(a, b)
    ensures Tends(a, b)
  {
    hide Busy, NewlyAdmitted;
    forall r | r in a.runs ensures r in b.runs && RunTends(a.runs[r], b.runs[r]) {
      assert RunAdmits(a.runs[r], b.runs[r]);
    }
  }

  lemma TendsTransitive(a: Journal, b: Journal, c: Journal)
    requires Tends(a, b) && Tends(b, c)
    ensures Tends(a, c)
  {
    forall r | r in a.runs ensures r in c.runs && RunTends(a.runs[r], c.runs[r]) {
      assert RunTends(a.runs[r], b.runs[r]) && RunTends(b.runs[r], c.runs[r]);
    }
  }

  lemma TendsAdmits(a: Journal, b: Journal, c: Journal)
    requires Tends(a, b) && Admits(b, c)
    ensures Tends(a, c)
  {
    hide Tends, Admits;
    AdmitsTends(b, c);
    TendsTransitive(a, b, c);
  }

  lemma TendsUpdate(a: Journal, b: Journal, id: RunId, r: Run)
    requires Tends(a, b) && id in b.runs && RunTends(b.runs[id], r)
    ensures Tends(a, b.(runs := b.runs[id := r]))
  {
    var c := b.(runs := b.runs[id := r]);
    assert Tends(b, c);
    hide Tends;
    TendsTransitive(a, b, c);
  }

  /** Changing a fault that is past its queue keeps what waiting jobs rely on. */
  lemma KeepsWaitingFault(a: Run, b: Run, x: FaultId)
    requires x in a.faults && b.resources == a.resources
    requires exists s :: b.faults == a.faults[x := a.faults[x].(state := s)]
    ensures a.faults[x].state != FaultQueued ==> KeepsWaiting(a, b)
  {
  }

  lemma GuardStep(t: seq<Effect>, e: Effect, r: RunId)
    ensures GuardOf(t + [e], r) == After(GuardOf(t, r), e, r)
  {
    var n := t + [e];
    assert n[..|n| - 1] == t && n[|n| - 1] == e;
  }

  /** Effects that are no arm, stop, status or restart leave every run's guard alone. */
  lemma GuardNeutral(t: seq<Effect>, e: Effect)
    requires Spares(e, {})
    ensures forall r :: GuardOf(t + [e], r) == GuardOf(t, r)
  {
    hide GuardOf;
    forall r ensures GuardOf(t + [e], r) == GuardOf(t, r) {
      GuardStep(t, e, r);
    }
  }

  lemma FaultKnown(a: Journal, b: Journal, id: RunId, x: FaultId)
    requires Admits(a, b) && id in a.runs && x in a.runs[id].faults
    ensures id in b.runs && x in b.runs[id].faults && b.runs[id].faults[x] == a.runs[id].faults[x]
  {
    hide Busy, NewlyAdmitted;
    assert RunAdmits(a.runs[id], b.runs[id]);
  }

  lemma AttendedMore(t: seq<Effect>, j: Journal, except: set<RunId>)
    requires Attended(t, j, {})
    ensures Attended(t, j, except)
  {
    hide GuardOf;
  }

  /** Fault `x` of run `id` is past its queue. */
  ghost predicate PastQueue(j: Journal, id: RunId, x: FaultId) {
    id in j.runs && x in j.runs[id].faults && j.runs[id].faults[x].state != FaultQueued
  }

  lemma TendsFaults(a: Journal, b: Journal)
    requires Tends(a, b)
    ensures forall r, x :: r in a.runs && x in a.runs[r].faults ==> r in b.runs && x in b.runs[r].faults
  {
    forall r, x | r in a.runs && x in a.runs[r].faults ensures r in b.runs && x in b.runs[r].faults {
      assert RunTends(a.runs[r], b.runs[r]);
    }
  }

  lemma QueuedHasNoQdisc(w: World, id: RunId, r: Run, x: FaultId)
    requires RunCovers(w, id, r) && x in r.faults && r.faults[x].state == FaultQueued
    ensures (id, x) !in w.qdiscs
  {
    assert !HasFault(r, x);
  }

  lemma AnnouncedIsKnown(r: Run, x: FaultId)
    requires x in r.faults && r.faults[x].state == Applying
    ensures HasFault(r, x)
  {
  }

  lemma SameWaiting(a: Run, b: Run)
    requires a.resources == b.resources && a.faults == b.faults
    ensures KeepsWaiting(a, b)
  {
  }

  lemma RunStays(a: Journal, b: Journal, id: RunId)
    requires Admits(a, b) && id in a.runs
    ensures id in b.runs && RunAdmits(a.runs[id], b.runs[id])
  {
    hide RunAdmits, NewlyAdmitted, Busy;
  }

  /** What a queued job finds: an untouched run to start, or its fault on record. */
  ghost predicate JobReady(j: Journal, jid: JobId) {
    && jid in j.jobs && j.jobs[jid].run in j.runs
    && var r := j.runs[j.jobs[jid].run];
       match j.jobs[jid].operation
       case Start => r.resources == []
       case FaultApply(x) => x in r.faults && r.faults[x].state == FaultQueued
       case FaultRemove(x) => x in r.faults
       case _ => true
  }

  lemma JobFacts(w: World, t: seq<Effect>, acked: map<Key, Ack>, j: Journal, jid: JobId)
    requires Recorded(w, t, acked, j) && jid in j.jobs && j.jobs[jid].state == Queued
    ensures JobReady(j, jid) && JobStarted(jid) !in t
  {
    hide Covered, RunOk, KeysOk, Remembers;
  }

  lemma FirstStart(t: seq<Effect>, jid: JobId)
    requires JobStarted(jid) !in t
    ensures Permitted(t, JobStarted(jid))
  {
  }

  lemma RecordedStart(w: World, t: seq<Effect>, acked: map<Key, Ack>, j: Journal, jid: JobId)
    requires Recorded(w, t, acked, j) && jid in j.jobs && j.jobs[jid].state != Queued
    ensures Recorded(w, t + [JobStarted(jid)], acked, j)
  {
    hide Covered, Consistent, Remembers;
  }

  lemma JobHasRun(w: World, t: seq<Effect>, acked: map<Key, Ack>, j: Journal, jid: JobId)
    requires Recorded(w, t, acked, j) && jid in j.jobs
    ensures j.jobs[jid].run in j.runs
  {
    hide Covered, RunOk, KeysOk, Remembers, StartsKnown;
  }

  lemma RestartTrace(w: World, t: seq<Effect>, acked: map<Key, Ack>, j: Journal)
    requires Recorded(w, t, acked, j) && SafeTrace(t)
    ensures Recorded(w, t + [Restarted], acked, j) && SafeTrace(t + [Restarted])
  {
    hide Recorded;
    RecordedEffect(w, t, Restarted, acked, j);
    TraceStep(t, Restarted);
  }

  lemma AttendedNone(t: seq<Effect>, j: Journal)
    ensures Attended(t, j, j.runs.Keys)
  {
    hide GuardOf;
  }

  lemma NoneWaitingJobs(a: Journal, b: Journal)
    requires NoneWaiting(a) && a.jobs == b.jobs
    ensures NoneWaiting(b)
  {
  }
}
