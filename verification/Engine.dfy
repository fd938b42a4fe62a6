/** The execution engine as one object: its journal in memory and on disk, the
    request handler, and the worker thread with every backend call.

    The worker may be interrupted by requests wherever the original releases its
    mutex (`Interleave`), every call and every save may fail, and the agent may die
    at any of them (`Dead`); the predicate `Safe` holds at each of these points. */
module Engine {
  import opened EngineState
  import opened EngineTrace
  import opened EngineInvariants

  /** How a step ends: normally, with an exception, or with the agent's death. */
  datatype Flow = Go | Thrown | Dead

  datatype Reply = Accepted(job: JobId) | Rejected(error: Error) | JournalUnavailable | CommitFailed

  /** A running job and its run are on record. */
  ghost predicate OnJob(j: Journal, id: RunId, jid: JobId) {
    id in j.runs && jid in j.jobs && j.jobs[jid].state == Running && j.jobs[jid].run == id
  }

  /** While a job runs, requests leave its run alone except for the revision. */
  lemma OnJobAdmits(a: Journal, b: Journal, id: RunId, jid: JobId)
    requires OnJob(a, id, jid) && Admits(a, b)
    ensures OnJob(b, id, jid) && b.runs[id] == a.runs[id].(revision := b.runs[id].revision)
    ensures b.jobs[jid].operation == a.jobs[jid].operation
  {
    hide NewlyAdmitted;
    assert PendingJob(a.jobs[jid]);
    assert Busy(a);
    assert RunAdmits(a.runs[id], b.runs[id]);
  }

  class Engine {
    var mem: Journal
    var disk: Journal
    var stopping: bool
    var serving: bool
    ghost var world: World
    ghost var trace: seq<Effect>
    /** What requesters were told, in this life of the agent or an earlier one. */
    ghost var acked: map<Key, Ack>

    /** What holds at every moment: whatever exists is covered by the journal in
        memory and by the journal on disk, both are consistent, and the effects so
        far obey the rules. */
    ghost predicate Safe()
      reads this
    {
      Sound() && (stopping || mem.keys.Keys <= acked.Keys)
    }

    /** The same while a request is being saved. */
    ghost predicate Sound()
      reads this
    {
      && Recorded(world, trace, acked, mem)
      && Recorded(world, trace, acked, disk)
      && SafeTrace(trace)
    }

    ghost predicate Tending(except: set<RunId>)
      reads this
    {
      Safe() && Attended(trace, mem, except)
    }

    constructor ()
      ensures Safe() && mem == disk == Journal(map[], map[], map[]) && trace == [] && !serving
      ensures world == World({}, {}, {}) && acked == map[]
    {
      mem, disk := Journal(map[], map[], map[]), Journal(map[], map[], map[]);
      stopping, serving := false, false;
      world, trace, acked := World({}, {}, {}), [], map[];
    }

    // ----- the journal -----

    /** `save` on behalf of a request. A failing commit may or may not have reached the disk. */
    method Commit() returns (ok: bool)
      requires Sound()
      modifies this`disk, this`stopping
      ensures Sound()
      ensures ok ==> disk == mem && stopping == old(stopping)
      ensures !ok ==> stopping && (disk == old(disk) || disk == mem)
    {
      hide Recorded, SafeTrace;
      ok := *;
      var reached: bool := *;
      if ok || reached {
        disk := mem;
      }
      if !ok {
        stopping := true;
      }
    }

    /** `save` on behalf of the worker, which may also die on either side of the commit. */
    method Save() returns (f: Flow)
      requires Safe()
      modifies this`disk, this`stopping
      ensures Safe()
      ensures f == Go ==> disk == mem && stopping == old(stopping)
      ensures disk == old(disk) || disk == mem
    {
      var ok := Commit();
      var dies: bool := *;
      return if dies then Dead else if ok then Go else Thrown;
    }

    // ----- the request handler -----

    /** `dispatch` for start, operate and the two fault requests. */
    method Submit(key: Key, digest: Digest, q: Request, ids: FreshIds) returns (reply: Reply)
      requires Safe() && FreshFor(mem, ids)
      modifies this`mem, this`disk, this`stopping, this`acked
      ensures Grown(old(acked), acked)
      ensures Safe()
      ensures Admits(old(mem), mem) && (disk == old(disk) || disk == mem)
      ensures reply == JournalUnavailable <==> old(stopping)
      ensures !old(stopping) ==>
                match Decide(old(mem), key, digest, q, ids)
                case Reject(e) => reply == Rejected(e) && mem == old(mem)
                case Existing(j) => reply == Accepted(j) && mem == old(mem)
                case Accept(_, _, _) =>
                  && mem == Applied(old(mem), key, digest, ids.job, Decide(old(mem), key, digest, q, ids))
                  && ((reply == Accepted(ids.job) && disk == mem) || (reply == CommitFailed && stopping))
      ensures reply.Accepted? ==> key in acked && acked[key].digest == digest && acked[key].job == reply.job
      ensures key in old(acked) && ((q.ApplyFault? || q.RemoveFault?) ==> q.run == old(acked)[key].run) ==>
                || reply == JournalUnavailable
                || reply == if old(acked)[key].digest == digest then Accepted(old(acked)[key].job) else Rejected(IdempotencyConflict)
    {
      hide Covered, Consistent, Admits, SafeTrace, StartsKnown, FreshFor;
      AdmitsReflexive(mem);
      if key in acked {
        ResubmissionReturnsSameJob(world, trace, acked, mem, key, digest, q, ids);
      }
      if stopping {
        return JournalUnavailable;
      }
      var d := Decide(mem, key, digest, q, ids);
      match d {
        case Reject(e) => return Rejected(e);
        case Existing(j) => return Accepted(j);
        case Accept(_, _, _) =>
      }
      AcceptMeans(mem, key, digest, q, ids);
      hide Decide;
      assert ids.job !in mem.jobs by { FreshJob(mem, ids); }
      AppliedAdmits(mem, key, digest, ids.job, d);
      AppliedConsistent(mem, key, digest, ids.job, d);
      ghost var next := Applied(mem, key, digest, ids.job, d);
      RecordedAdmits(world, trace, acked, mem, next);
      mem := Applied(mem, key, digest, ids.job, d);
      var ok := Commit();
      if ok {
        ghost var told := Ack(digest, ids.job, mem.jobs[ids.job].run);
        RecordedAck(world, trace, acked, mem, key, told);
        acked := acked[key := told];
      }
      return if ok then Accepted(ids.job) else CommitFailed;
    }

    /** `cancel`: only a pending start or fault application can be asked to stop. */
    method Cancel(x: JobId) returns (ok: bool)
      requires Safe()
      modifies this`mem, this`disk, this`stopping, this`acked
      ensures Grown(old(acked), acked)
      ensures Safe() && Admits(old(mem), mem) && (disk == old(disk) || disk == mem)
      ensures ok ==>
                && x in old(mem).jobs && PendingJob(old(mem).jobs[x])
                && (old(mem).jobs[x].operation == Start || old(mem).jobs[x].operation.FaultApply?)
                && mem == Cancelled'(old(mem), x) && disk == mem
      ensures !ok ==> mem == old(mem) || stopping
    {
      hide Covered, Consistent, Admits, SafeTrace, StartsKnown;
      AdmitsReflexive(mem);
      if stopping || x !in mem.jobs || !PendingJob(mem.jobs[x])
         || !(mem.jobs[x].operation == Start || mem.jobs[x].operation.FaultApply?) {
        return false;
      }
      CancelOk(mem, x);
      ghost var next := Cancelled'(mem, x);
      RecordedAdmits(world, trace, acked, mem, next);
      mem := Cancelled'(mem, x);
      ok := Commit();
    }

    /** Any number of requests, handled while the worker does not hold the mutex. */
    method Interleave()
      requires Safe()
      modifies this`mem, this`disk, this`stopping, this`acked
      ensures Grown(old(acked), acked)
      ensures Safe()
      ensures Admits(old(mem), mem)
      ensures disk == old(disk) || Admits(old(mem), disk)
      ensures !serving ==> mem == old(mem)
    {
      hide Recorded, SafeTrace, Admits, FreshFor, Decide;
      AdmitsReflexive(mem);
      if !serving {
        return;
      }
      var n: nat :| true;
      for i := 0 to n
        invariant Safe() && Admits(old(mem), mem) && Grown(old(acked), acked)
        invariant disk == old(disk) || Admits(old(mem), disk)
      {
        label Before:
        var which: bool := *;
        if which {
          var key: Key :| true;
          var digest: Digest :| true;
          var q: Request :| true;
          var ids := FreshIdsFor(mem);
          var reply := Submit(key, digest, q, ids);
        } else {
          var x: JobId :| true;
          var ok := Cancel(x);
        }
        AdmitsTransitive(old(mem), old@Before(mem), mem);
      }
    }

    method FreshIdsFor(j: Journal) returns (ids: FreshIds)
      ensures FreshFor(j, ids)
    {
      var r := Unused(j.runs.Keys);
      var x := Unused(j.jobs.Keys);
      var f := Unused(AllFaults(j));
      ids := FreshIds(r, x, f);
      AllFaultsOk(j);
    }

    /** Requests come in before the worker takes the mutex. */
    method Yield(except: set<RunId>)
      requires Tending(except)
      modifies this`mem, this`disk, this`stopping, this`acked
      ensures Grown(old(acked), acked)
      ensures Tending(except)
      ensures Admits(old(mem), mem)
      ensures disk == old(disk) || Admits(old(mem), disk)
      ensures !serving ==> mem == old(mem)
    {
      hide Recorded, SafeTrace, Admits, Attended;
      Interleave();
      AttendedAdmits(trace, old(mem), mem, except);
    }

    /** Under the mutex: one run's record changes and the journal is saved. */
    method Update(id: RunId, r: Run, except: set<RunId>) returns (f: Flow)
      requires Tending(except) && id in mem.runs
      requires RunCovers(world, id, r) && RunOk(r) && mem.runs[id].faults.Keys <= r.faults.Keys
      requires KeepsWaiting(mem.runs[id], r) || NoneWaiting(mem)
      requires id in except || r.state != Ready
               || (mem.runs[id].state == Ready && r.epoch == mem.runs[id].epoch && r.topology == mem.runs[id].topology)
      modifies this`mem, this`disk, this`stopping, this`acked
      ensures Grown(old(acked), acked)
      ensures Tending(except)
      ensures mem == old(mem).(runs := old(mem).runs[id := r])
      ensures f == Go ==> disk == mem
    {
      hide Covered, Consistent, StartsKnown, Remembers, SafeTrace, RunCovers, RunOk, Attended, Recorded, KeepsWaiting, NoneWaiting;
      RecordedRun(world, trace, acked, mem, id, r);
      AttendedRun(trace, mem, id, r, except);
      mem := mem.(runs := mem.runs[id := r]);
      f := Save();
    }

    // ----- backend calls -----

    /** A call that leaves the world as it is. */
    method Call(e: Effect, except: set<RunId>) returns (f: Flow)
      requires Tending(except) && Spares(e, except) && !e.JobStarted?
      requires Permitted(trace, e)
      modifies this`mem, this`disk, this`stopping, this`trace, this`acked
      ensures Grown(old(acked), acked)
      ensures Tending(except) && Admits(old(mem), mem)
      ensures !serving ==> mem == old(mem)
      ensures trace == old(trace) + [e]
    {
      hide Recorded, SafeTrace, Admits, Attended, Permitted, Spares;
      Yield(except);
      Record(e, except);
      f := Ending();
    }

    method Ending() returns (f: Flow)
    {
      f :| true;
    }

    ghost method Record(e: Effect, except: set<RunId>)
      requires Tending(except) && Spares(e, except) && !e.JobStarted? && Permitted(trace, e)
      modifies this`trace
      ensures Tending(except) && trace == old(trace) + [e]
    {
      hide Recorded, SafeTrace, Admits, Attended, Permitted, Spares;
      AttendedEffect(trace, e, mem, except);
      RecordedEffect(world, trace, e, acked, mem);
      RecordedEffect(world, trace, e, acked, disk);
      trace := trace + [e];
    }

    /** `capture_control(run, "status")`. */
    method Status(id: RunId, except: set<RunId>) returns (f: Flow)
      requires Tending(except) && id in except
      modifies this`mem, this`disk, this`stopping, this`trace, this`acked
      ensures Grown(old(acked), acked)
      ensures Tending(except) && Admits(old(mem), mem)
      ensures trace == old(trace) + [StatusCall(id, f == Go)]
    {
      hide Recorded, SafeTrace, Admits, Attended;
      f := Ending();
      Yield(except);
      Record(StatusCall(id, f == Go), except);
    }

    /** `prepare`: the resource may come into existence whether or not the call
        succeeds; its intent is already on disk. */
    method Prepare(id: RunId, k: ResourceKey, except: set<RunId>) returns (f: Flow)
      requires Tending(except)
      requires id in mem.runs && HasResource(mem.runs[id], k) && disk == mem
      modifies this`mem, this`disk, this`stopping, this`trace, this`world, this`acked
      ensures Grown(old(acked), acked)
      ensures Tending(except) && Admits(old(mem), mem)
      ensures trace == old(trace) + [PrepareCall(id, k)]
    {
      hide Covered, Consistent, StartsKnown, Remembers, SafeTrace, Admits, Attended, HasResource;
      Yield(except);
      HasResourceAdmits(old(mem), mem, id, k);
      if disk != old(disk) {
        HasResourceAdmits(old(mem), disk, id, k);
      }
      var made: bool := *;
      if made {
        CoveredResource(world, mem, id, k);
        CoveredResource(world, disk, id, k);
        world := AddResource(world, id, k);
      }
      Record(PrepareCall(id, k), except);
      f := Ending();
    }

    /** `remove`: success means gone. Nothing of a class created later than `k` exists any more. */
    method Remove(id: RunId, k: ResourceKey, except: set<RunId>) returns (f: Flow)
      requires Tending(except)
      requires forall o :: (id, o) in world.resources ==> o.Rank() <= k.Rank()
      modifies this`mem, this`disk, this`stopping, this`trace, this`world, this`acked
      ensures Grown(old(acked), acked)
      ensures Tending(except) && Admits(old(mem), mem)
      ensures trace == old(trace) + [RemoveCall(id, k, f == Go)]
      ensures world == old(world) || world == DropResource(old(world), id, k)
      ensures f == Go ==> world == DropResource(old(world), id, k)
    {
      hide Covered, Consistent, StartsKnown, Remembers, SafeTrace, Admits, Attended;
      Yield(except);
      f := Ending();
      var gone: bool := *;
      if f == Go || gone {
        CoveredLess(world, DropResource(world, id, k), mem);
        CoveredLess(world, DropResource(world, id, k), disk);
        world := DropResource(world, id, k);
      }
      Record(RemoveCall(id, k, f == Go), except);
    }

    /** `capture_control(run, "arm")`: workers of the current descriptors may come into existence. */
    method ArmCaptures(id: RunId, except: set<RunId>) returns (f: Flow)
      requires Tending(except) && id in except && id in mem.runs && disk == mem
      modifies this`mem, this`disk, this`stopping, this`trace, this`world, this`acked
      ensures Grown(old(acked), acked)
      ensures Tending(except) && Admits(old(mem), mem)
      ensures trace == old(trace) + [ArmCall(id, old(mem).runs[id].epoch, f == Go)]
    {
      hide Covered, Consistent, StartsKnown, Remembers, SafeTrace, Admits, Attended;
      Yield(except);
      CapturesAdmit(old(mem), mem, id);
      if disk != old(disk) {
        CapturesAdmit(old(mem), disk, id);
      }
      var some: set<CaptureId> := *;
      ghost var started := set c | c in some && c in mem.runs[id].captures;
      CoveredWorkers(world, mem, id, started);
      CoveredWorkers(world, disk, id, started);
      world := AddWorkers(world, id, started);
      f := Ending();
      Record(ArmCall(id, old(mem).runs[id].epoch, f == Go), except);
    }

    /** `capture_control(run, "stop")`: success means that no worker of the run exists. */
    method StopCaptures(id: RunId, except: set<RunId>) returns (f: Flow)
      requires Tending(except) && id in except && id in mem.runs
      modifies this`mem, this`disk, this`stopping, this`trace, this`world, this`acked
      ensures Grown(old(acked), acked)
      ensures Tending(except) && Admits(old(mem), mem)
      ensures trace == old(trace) + [StopCall(id, f == Go)]
      ensures world.resources == old(world).resources && world.qdiscs == old(world).qdiscs
      ensures f == Go ==> forall c :: (id, c) !in world.workers
    {
      hide Consistent, StartsKnown, Remembers, SafeTrace, Admits, Attended;
      Yield(except);
      CapturesAdmit(old(mem), mem, id);
      f := Ending();
      var some: set<CaptureId> := *;
      ghost var all := set c | c in mem.runs[id].captures;
      ghost var stopped := if f == Go then all else all * some;
      assert RunCovers(world, id, mem.runs[id]);
      hide Covered;
      CoveredLess(world, DropWorkers(world, id, stopped), mem);
      CoveredLess(world, DropWorkers(world, id, stopped), disk);
      world := DropWorkers(world, id, stopped);
      Record(StopCall(id, f == Go), except);
    }

    /** `fault(run, f, "apply")`: the qdisc may come into existence; its fault is live on disk. */
    method ApplyQdisc(id: RunId, x: FaultId, except: set<RunId>) returns (f: Flow)
      requires Tending(except) && id in mem.runs && HasFault(mem.runs[id], x) && disk == mem
      modifies this`mem, this`disk, this`stopping, this`trace, this`world, this`acked
      ensures Grown(old(acked), acked)
      ensures Tending(except) && Admits(old(mem), mem)
      ensures trace == old(trace) + [FaultCall(id, x, true)]
    {
      hide Covered, Consistent, StartsKnown, Remembers, SafeTrace, Admits, Attended, HasFault;
      Yield(except);
      HasFaultAdmits(old(mem), mem, id, x);
      if disk != old(disk) {
        HasFaultAdmits(old(mem), disk, id, x);
      }
      var made: bool := *;
      if made {
        CoveredQdisc(world, mem, id, x);
        CoveredQdisc(world, disk, id, x);
        world := AddQdisc(world, id, x);
      }
      Record(FaultCall(id, x, true), except);
      f := Ending();
    }

    /** `fault(run, f, "remove")`: success means gone. */
    method RemoveQdisc(id: RunId, x: FaultId, except: set<RunId>) returns (f: Flow)
      requires Tending(except)
      modifies this`mem, this`disk, this`stopping, this`trace, this`world, this`acked
      ensures Grown(old(acked), acked)
      ensures Tending(except) && Admits(old(mem), mem)
      ensures !serving ==> mem == old(mem)
      ensures trace == old(trace) + [FaultCall(id, x, false)]
      ensures world == old(world) || world == DropQdisc(old(world), id, x)
      ensures f == Go ==> world == DropQdisc(old(world), id, x)
    {
      hide Covered, Consistent, StartsKnown, Remembers, SafeTrace, Admits, Attended;
      Yield(except);
      f := Ending();
      var gone: bool := *;
      if f == Go || gone {
        CoveredLess(world, DropQdisc(world, id, x), mem);
        CoveredLess(world, DropQdisc(world, id, x), disk);
        world := DropQdisc(world, id, x);
      }
      Record(FaultCall(id, x, false), except);
    }

    // ----- the worker: parts of a job -----

    ghost predicate Working(id: RunId, jid: JobId, except: set<RunId>)
      reads this
    {
      Tending(except) && OnJob(mem, id, jid)
    }

    /** Requests come in during a job; its run keeps everything but the revision. */
    method Pause(id: RunId, jid: JobId, except: set<RunId>)
      requires Working(id, jid, except)
      modifies this`mem, this`disk, this`stopping, this`acked
      ensures Grown(old(acked), acked)
      ensures Working(id, jid, except)
      ensures Masked(mem.runs[id]) == Masked(old(mem).runs[id])
      ensures mem.jobs[jid].operation == old(mem).jobs[jid].operation
    {
      hide Recorded, SafeTrace, Admits, Attended;
      Yield(except);
      OnJobAdmits(old(mem), mem, id, jid);
    }

    /** The job changes its run's record and saves. */
    method Change(id: RunId, jid: JobId, r: Run, except: set<RunId>) returns (f: Flow)
      requires Working(id, jid, except)
      requires RunCovers(world, id, r) && RunOk(r) && mem.runs[id].faults.Keys <= r.faults.Keys
      requires id in except || r.state != Ready
               || (mem.runs[id].state == Ready && r.epoch == mem.runs[id].epoch && r.topology == mem.runs[id].topology)
      modifies this`mem, this`disk, this`stopping, this`acked
      ensures Grown(old(acked), acked)
      ensures Working(id, jid, except)
      ensures mem.runs[id] == r && mem.jobs == old(mem).jobs
      ensures f == Go ==> disk == mem
    {
      hide Recorded, SafeTrace, RunCovers, RunOk, Attended, KeepsWaiting, NoneWaiting;
      OnlyJobRecorded(world, trace, acked, mem, id, jid);
      f := Update(id, r, except);
    }

    /** The job's `state(...)` helper. */
    method SetState(id: RunId, jid: JobId, s: RunState) returns (f: Flow)
      requires Working(id, jid, {id})
      modifies this`mem, this`disk, this`stopping, this`acked
      ensures Grown(old(acked), acked)
      ensures Working(id, jid, {id})
      ensures Masked(mem.runs[id]) == Masked(old(mem).runs[id]).(state := s)
    {
      hide Recorded, SafeTrace, Attended, RunCovers, RunOk;
      Pause(id, jid, {id});
      RunFacts(world, trace, acked, mem, id);
      var r := mem.runs[id].(state := s);
      SameRecordsOk(world, id, mem.runs[id], r);
      f := Change(id, jid, r, {id});
    }

    /** `cancelled()`: an engine that is stopping abandons the job here. */
    method CancelAsked(id: RunId, jid: JobId) returns (f: Flow, asked: bool)
      requires Working(id, jid, {id})
      modifies this`mem, this`disk, this`stopping, this`acked
      ensures Grown(old(acked), acked)
      ensures Working(id, jid, {id})
      ensures Masked(mem.runs[id]) == Masked(old(mem).runs[id])
      ensures f == Go ==> asked == mem.jobs[jid].cancelRequested
    {
      hide Recorded, SafeTrace, Attended;
      Pause(id, jid, {id});
      asked := mem.jobs[jid].cancelRequested;
      f := if stopping then Thrown else Go;
    }

    /** A backend call of the job that leaves the world and the captures alone. */
    method JobCall(e: Effect, id: RunId, jid: JobId, except: set<RunId>) returns (f: Flow)
      requires Working(id, jid, except) && Spares(e, except) && !e.JobStarted? && Permitted(trace, e)
      modifies this`mem, this`disk, this`stopping, this`trace, this`acked
      ensures Grown(old(acked), acked)
      ensures Working(id, jid, except)
      ensures Masked(mem.runs[id]) == Masked(old(mem).runs[id])
      ensures trace == old(trace) + [e]
    {
      hide Recorded, SafeTrace, Attended, Admits, Spares, Permitted;
      f := Call(e, except);
      OnJobAdmits(old(mem), mem, id, jid);
    }

    /** First half of `arm`: stop what is armed and move it to the history under a new epoch. */
    method RetireCaptures(id: RunId, jid: JobId) returns (f: Flow)
      requires Working(id, jid, {id}) && mem.runs[id].topology.captured
      modifies this`mem, this`disk, this`stopping, this`trace, this`world, this`acked
      ensures Grown(old(acked), acked)
      ensures Working(id, jid, {id})
      ensures Rearmed(old(mem).runs[id], mem.runs[id])
      ensures f == Go ==> forall c :: (id, c) !in world.workers
    {
      hide Recorded, SafeTrace, Attended, Admits, RunCovers, RunOk;
      Pause(id, jid, {id});
      label A:
      if mem.runs[id].captures != [] {
        f := StopCaptures(id, {id});
        OnJobAdmits(old@A(mem), mem, id, jid);
        if f != Go {
          return;
        }
      } else {
        RunFacts(world, trace, acked, mem, id);
        NoWorkers(world, id, mem.runs[id]);
      }
      Pause(id, jid, {id});
      RunFacts(world, trace, acked, mem, id);
      var q := mem.runs[id];
      var r := q.(history := q.history + q.captures, captures := [], epoch := q.epoch + 1);
      SetCapturesOk(world, id, q, r);
      f := Change(id, jid, r, {id});
    }

    /** Second half of `arm`: record the new descriptors, and only then start their workers. */
    method LaunchCaptures(id: RunId, jid: JobId) returns (f: Flow)
      requires Working(id, jid, {id}) && mem.runs[id].topology.captured
      requires forall c :: (id, c) !in world.workers
      modifies this`mem, this`disk, this`stopping, this`trace, this`world, this`acked
      ensures Grown(old(acked), acked)
      ensures Working(id, jid, {id})
      ensures Rearmed(old(mem).runs[id], mem.runs[id])
      ensures f == Go ==> mem.runs[id].state == Armed && GuardOf(trace, id) == ArmedAt(mem.runs[id].epoch)
    {
      hide Recorded, SafeTrace, Attended, Admits, RunCovers, RunOk, GuardOf;
      f := JobCall(OtherCall, id, jid, {id}); // capture_plan
      if f != Go {
        return;
      }
      var planned: seq<CaptureId> :| true;
      Pause(id, jid, {id});
      RunFacts(world, trace, acked, mem, id);
      var r := mem.runs[id].(captures := planned);
      SetCapturesOk(world, id, mem.runs[id], r);
      f := Change(id, jid, r, {id}); // durable launch intents
      if f != Go {
        return;
      }
      label B:
      f := ArmCaptures(id, {id});
      OnJobAdmits(old@B(mem), mem, id, jid);
      if f != Go {
        return;
      }
      GuardLast(trace, id);
      Pause(id, jid, {id});
      RunFacts(world, trace, acked, mem, id);
      r := mem.runs[id].(coverage := ArmedCoverage, state := Armed);
      SameRecordsOk(world, id, mem.runs[id], r);
      f := Change(id, jid, r, {id});
    }

    /** `arm`. */
    method Arm(id: RunId, jid: JobId) returns (f: Flow)
      requires Working(id, jid, {id})
      modifies this`mem, this`disk, this`stopping, this`trace, this`world, this`acked
      ensures Grown(old(acked), acked)
      ensures Working(id, jid, {id})
      ensures Rearmed(old(mem).runs[id], mem.runs[id])
      ensures f == Go && mem.runs[id].topology.captured ==>
                mem.runs[id].state == Armed && GuardOf(trace, id) == ArmedAt(mem.runs[id].epoch)
    {
      hide Recorded, SafeTrace, Attended, Admits, GuardOf;
      if !mem.runs[id].topology.captured {
        return Go;
      }
      f := RetireCaptures(id, jid);
      if f == Go {
        f := LaunchCaptures(id, jid);
      }
    }

    /** `close_captures`. */
    method CloseCaptures(id: RunId, jid: JobId) returns (f: Flow)
      requires Working(id, jid, {id})
      modifies this`mem, this`disk, this`stopping, this`trace, this`world, this`acked
      ensures Grown(old(acked), acked)
      ensures Working(id, jid, {id})
      ensures Masked(mem.runs[id]) == Masked(old(mem).runs[id]).(coverage := mem.runs[id].coverage)
      ensures world.resources == old(world).resources && world.qdiscs == old(world).qdiscs
      ensures f == Go ==> forall c :: (id, c) !in world.workers
    {
      hide Recorded, SafeTrace, Attended, Admits, RunCovers, RunOk;
      Pause(id, jid, {id});
      label A:
      if !mem.runs[id].topology.captured {
        RunFacts(world, trace, acked, mem, id);
        NoWorkers(world, id, mem.runs[id]);
        return Go;
      }
      f := StopCaptures(id, {id});
      OnJobAdmits(old@A(mem), mem, id, jid);
      if f != Go {
        return;
      }
      Pause(id, jid, {id});
      RunFacts(world, trace, acked, mem, id);
      var anyOpen: bool := *;
      var partial := mem.runs[id].coverage in {Incomplete, ClosedIncomplete} || anyOpen;
      var r := mem.runs[id].(coverage := if partial then ClosedIncomplete else Closed);
      SameRecordsOk(world, id, mem.runs[id], r);
      f := Change(id, jid, r, {id});
    }

    /** `m5_clear`: every live fault of the run is removed. */
    method ClearFaults(id: RunId, jid: JobId) returns (f: Flow)
      requires Working(id, jid, {id})
      modifies this`mem, this`disk, this`stopping, this`trace, this`world, this`acked
      ensures Grown(old(acked), acked)
      ensures Working(id, jid, {id})
      ensures Masked(mem.runs[id]) == Masked(old(mem).runs[id]).(faults := mem.runs[id].faults)
      ensures world.resources == old(world).resources && world.workers == old(world).workers
      ensures f == Go ==> forall x :: x in mem.runs[id].faults ==> !Live(mem.runs[id].faults[x].state)
    {
      hide Recorded, SafeTrace, Attended, Admits, RunCovers, RunOk;
      Pause(id, jid, {id});
      var todo := mem.runs[id].faults.Keys;
      while todo != {}
        invariant Working(id, jid, {id}) && Grown(old(acked), acked)
        invariant Masked(mem.runs[id]) == Masked(old(mem).runs[id]).(faults := mem.runs[id].faults)
        invariant world.resources == old(world).resources && world.workers == old(world).workers
        invariant todo <= mem.runs[id].faults.Keys
        invariant forall x :: x in mem.runs[id].faults && x !in todo ==> !Live(mem.runs[id].faults[x].state)
        decreases todo
      {
        label L:
        var x :| x in todo;
        todo := todo - {x};
        if Live(mem.runs[id].faults[x].state) {
          f := RemoveQdisc(id, x, {id});
          OnJobAdmits(old@L(mem), mem, id, jid);
          if f != Go {
            return;
          }
          Pause(id, jid, {id});
          RunFacts(world, trace, acked, mem, id);
          SetFaultOk(world, id, mem.runs[id], x, FaultRemoved);
          f := Change(id, jid, SetFault(mem.runs[id], x, FaultRemoved), {id});
          if f != Go {
            return;
          }
        }
      }
      return Go;
    }

    /** `cleanup`: faults, captures, then every resource in reverse order of creation.
        Success leaves nothing of the run in the world. */
    method Cleanup(id: RunId, jid: JobId) returns (f: Flow)
      requires Working(id, jid, {id})
      modifies this`mem, this`disk, this`stopping, this`trace, this`world, this`acked
      ensures Grown(old(acked), acked)
      ensures Working(id, jid, {id})
      ensures mem.runs[id].state == old(mem).runs[id].state && mem.runs[id].topology == old(mem).runs[id].topology
      ensures f == Go ==> Gone(world, id)
    {
      hide Recorded, SafeTrace, Attended, Admits, RunCovers, RunOk, Gone;
      f := ClearFaults(id, jid);
      if f != Go {
        return;
      }
      f := CloseCaptures(id, jid);
      if f != Go {
        return;
      }
      Pause(id, jid, {id});
      var index := |mem.runs[id].resources|;
      while index > 0
        invariant Working(id, jid, {id}) && Grown(old(acked), acked)
        invariant mem.runs[id].state == old(mem).runs[id].state && mem.runs[id].topology == old(mem).runs[id].topology
        invariant 0 <= index <= |mem.runs[id].resources|
        invariant forall m :: index <= m < |mem.runs[id].resources| ==> mem.runs[id].resources[m].stage == Removed
        invariant forall x :: x in mem.runs[id].faults ==> !Live(mem.runs[id].faults[x].state)
        invariant forall c :: (id, c) !in world.workers
      {
        label L:
        index := index - 1;
        var resource := mem.runs[id].resources[index];
        if resource.stage != Removed {
          RunFacts(world, trace, acked, mem, id);
          OnlyLowerLeft(world, id, mem.runs[id], index);
          f := Remove(id, resource.key, {id});
          OnJobAdmits(old@L(mem), mem, id, jid);
          if f != Go {
            return;
          }
          Pause(id, jid, {id});
          RunFacts(world, trace, acked, mem, id);
          SetResourceOk(world, id, mem.runs[id], index, Removed);
          f := Change(id, jid, SetResource(mem.runs[id], index, Removed), {id});
          if f != Go {
            return;
          }
        }
      }
      RunFacts(world, trace, acked, mem, id);
      NothingLeft(world, id, mem.runs[id]);
      return Go;
    }

    /** The last transaction of a job: its run's record and its own state together. */
    method Finish(id: RunId, jid: JobId, r: Run, s: JobState, except: set<RunId>) returns (f: Flow)
      requires Working(id, jid, except) && !(s == Queued || s == Running)
      requires RunCovers(world, id, r) && RunOk(r) && mem.runs[id].faults.Keys <= r.faults.Keys
      requires id in except || r.state != Ready
               || (mem.runs[id].state == Ready && r.epoch == mem.runs[id].epoch && r.topology == mem.runs[id].topology)
      modifies this`mem, this`disk, this`stopping, this`acked
      ensures Grown(old(acked), acked)
      ensures Tending(except) && Belongs(mem, id, jid)
      ensures mem.runs[id] == r && mem.jobs[jid].state == s
    {
      hide Recorded, SafeTrace, RunCovers, RunOk, Attended, KeepsWaiting, NoneWaiting;
      OnlyJobRecorded(world, trace, acked, mem, id, jid);
      var a := mem.(runs := mem.runs[id := r]);
      var b := WithState(a, jid, s);
      RecordedRun(world, trace, acked, mem, id, r);
      AttendedRun(trace, mem, id, r, except);
      RecordedJob(world, trace, acked, a, jid, s);
      AttendedJobs(trace, a, b, except);
      mem := b;
      f := Save();
    }

    // ----- the operations -----

    /** Resources one by one: the intent is saved before the call, the result after it. */
    method PrepareAll(id: RunId, jid: JobId) returns (f: Flow, cancel: bool)
      requires Working(id, jid, {id}) && mem.runs[id].resources == []
      modifies this`mem, this`disk, this`stopping, this`trace, this`world, this`acked
      ensures Grown(old(acked), acked)
      ensures Working(id, jid, {id})
      ensures Masked(mem.runs[id]) == Masked(old(mem).runs[id]).(resources := mem.runs[id].resources)
    {
      hide Recorded, SafeTrace, Attended, Admits, RunCovers, RunOk, HasResource, Resources;
      f, cancel := CancelAsked(id, jid);
      if f != Go {
        return;
      }
      var plan := Resources(mem.runs[id].topology);
      var i := 0;
      while i < |plan| && !cancel
        invariant Working(id, jid, {id}) && 0 <= i <= |plan| && Grown(old(acked), acked)
        invariant Masked(mem.runs[id]) == Masked(old(mem).runs[id]).(resources := mem.runs[id].resources)
        invariant |mem.runs[id].resources| == i
      {
        Pause(id, jid, {id});
        RunFacts(world, trace, acked, mem, id);
        AddIntentOk(world, id, mem.runs[id]);
        f := Change(id, jid, AddIntent(mem.runs[id]), {id});
        if f != Go {
          return;
        }
        label L:
        f := Prepare(id, plan[i], {id});
        OnJobAdmits(old@L(mem), mem, id, jid);
        if f != Go {
          return;
        }
        Pause(id, jid, {id});
        RunFacts(world, trace, acked, mem, id);
        SetResourceOk(world, id, mem.runs[id], i, Prepared);
        f := Change(id, jid, SetResource(mem.runs[id], i, Prepared), {id});
        if f != Go {
          return;
        }
        i := i + 1;
        f, cancel := CancelAsked(id, jid);
        if f != Go {
          return;
        }
      }
    }

    /** The captures' status, when there are captures, and then the release of traffic. */
    method CheckAndRelease(id: RunId, jid: JobId) returns (f: Flow)
      requires Working(id, jid, {id})
      requires mem.runs[id].topology.captured ==> GuardOf(trace, id) == ArmedAt(mem.runs[id].epoch)
      modifies this`mem, this`disk, this`stopping, this`trace, this`acked
      ensures Grown(old(acked), acked)
      ensures Working(id, jid, {id})
      ensures Masked(mem.runs[id]) == Masked(old(mem).runs[id])
      ensures f == Go && mem.runs[id].topology.captured ==> GuardOf(trace, id) == HealthyAt(mem.runs[id].epoch)
    {
      hide Recorded, SafeTrace, Attended, Admits, GuardOf;
      if mem.runs[id].topology.captured {
        f := JobStatus(id, jid);
        if f != Go {
          return;
        }
      }
      ghost var t := trace;
      var e := ReleaseCall(id, mem.runs[id].epoch, mem.runs[id].topology.captured);
      f := JobCall(e, id, jid, {id});
      GuardStep(t, e, id);
    }

    method JobStatus(id: RunId, jid: JobId) returns (f: Flow)
      requires Working(id, jid, {id})
      modifies this`mem, this`disk, this`stopping, this`trace, this`acked
      ensures Grown(old(acked), acked)
      ensures Working(id, jid, {id})
      ensures Masked(mem.runs[id]) == Masked(old(mem).runs[id])
      ensures f == Go && !GuardOf(old(trace), id).Unarmed? ==> GuardOf(trace, id) == HealthyAt(GuardOf(old(trace), id).epoch)
    {
      hide Recorded, SafeTrace, Attended, Admits, GuardOf;
      f := Status(id, {id});
      OnJobAdmits(old(mem), mem, id, jid);
      GuardStep(old(trace), StatusCall(id, f == Go), id);
    }

    /** Compensation of a cancelled start. */
    method Compensate(id: RunId, jid: JobId) returns (f: Flow)
      requires Working(id, jid, {id})
      modifies this`mem, this`disk, this`stopping, this`trace, this`world, this`acked
      ensures Grown(old(acked), acked)
      ensures Tending({id}) && Belongs(mem, id, jid)
      ensures f == Go ==> mem.runs[id].state == Destroyed && mem.jobs[jid].state == Cancelled && Gone(world, id)
    {
      hide Recorded, SafeTrace, Attended, Admits, RunCovers, RunOk, Gone;
      f := SetState(id, jid, Compensating);
      if f != Go {
        return;
      }
      f := JobCall(QuiesceCall(id), id, jid, {id});
      if f == Dead {
        return;
      }
      f := Cleanup(id, jid);
      if f != Go {
        return;
      }
      f := SetState(id, jid, Destroyed);
      if f != Go {
        return;
      }
      Pause(id, jid, {id});
      RunFacts(world, trace, acked, mem, id);
      f := Finish(id, jid, mem.runs[id], Cancelled, {id});
    }

    /** The first calls of a start: capture capacity and the preflight. */
    method Reserve(id: RunId, jid: JobId) returns (f: Flow)
      requires Working(id, jid, {id})
      modifies this`mem, this`disk, this`stopping, this`trace, this`acked
      ensures Grown(old(acked), acked)
      ensures Working(id, jid, {id}) && Masked(mem.runs[id]) == Masked(old(mem).runs[id])
    {
      hide Recorded, SafeTrace, Attended, Admits, GuardOf;
      if mem.runs[id].topology.captured {
        f := JobCall(OtherCall, id, jid, {id}); // reserve capture capacity
        if f != Go {
          return;
        }
      }
      f := JobCall(OtherCall, id, jid, {id}); // preflight
    }

    /** `start`. `done` tells that the job ended cancelled. */
    method StartRunning(id: RunId, jid: JobId) returns (f: Flow, done: bool)
      requires Working(id, jid, {id}) && mem.runs[id].resources == []
      modifies this`mem, this`disk, this`stopping, this`trace, this`world, this`acked
      ensures Grown(old(acked), acked)
      ensures Tending({id}) && Belongs(mem, id, jid)
      ensures f == Go && !done ==> Working(id, jid, {id}) && Settled(trace, mem, id)
      ensures f == Go && done ==> mem.runs[id].state == Destroyed && Gone(world, id)
    {
      hide Recorded, SafeTrace, Attended, Admits, GuardOf, Gone;
      done := false;
      f := Reserve(id, jid);
      if f != Go {
        return;
      }
      var cancel;
      f, cancel := PrepareAll(id, jid);
      if f != Go {
        return;
      }
      if !cancel {
        f, cancel := Converge(id, jid);
        if f != Go {
          return;
        }
      }
      if !cancel {
        f := CheckAndRelease(id, jid);
        if f != Go {
          return;
        }
        f, cancel := CancelAsked(id, jid);
        if f != Go {
          return;
        }
      }
      if cancel {
        f := Compensate(id, jid);
        done := true;
        return;
      }
      f := SetState(id, jid, Ready);
    }

    method Converge(id: RunId, jid: JobId) returns (f: Flow, cancel: bool)
      requires Working(id, jid, {id})
      modifies this`mem, this`disk, this`stopping, this`trace, this`world, this`acked
      ensures Grown(old(acked), acked)
      ensures Working(id, jid, {id})
      ensures f == Go && mem.runs[id].topology.captured ==> GuardOf(trace, id) == ArmedAt(mem.runs[id].epoch)
    {
      hide Recorded, SafeTrace, Attended, Admits, GuardOf;
      cancel := false;
      f := Arm(id, jid);
      if f != Go {
        return;
      }
      f := SetState(id, jid, Converging);
      if f != Go {
        return;
      }
      ghost var t := trace;
      f := JobCall(OtherCall, id, jid, {id}); // activate
      GuardStep(t, OtherCall, id);
      if f != Go {
        return;
      }
      f, cancel := CancelAsked(id, jid);
    }

    /** `stop`. */
    method StopRunning(id: RunId, jid: JobId) returns (f: Flow)
      requires Working(id, jid, {id})
      modifies this`mem, this`disk, this`stopping, this`trace, this`world, this`acked
      ensures Grown(old(acked), acked)
      ensures Working(id, jid, {id})
      ensures f == Go ==> mem.runs[id].state == Stopped
    {
      hide Recorded, SafeTrace, Attended, Admits;
      f := JobCall(QuiesceCall(id), id, jid, {id});
      if f != Go {
        return;
      }
      if mem.runs[id].topology.captured {
        f := CloseCaptures(id, jid);
        if f != Go {
          return;
        }
      }
      f := SetState(id, jid, Stopped);
    }

    /** `destroy` and `recover`. */
    method DestroyRun(id: RunId, jid: JobId) returns (f: Flow)
      requires Working(id, jid, {id})
      modifies this`mem, this`disk, this`stopping, this`trace, this`world, this`acked
      ensures Grown(old(acked), acked)
      ensures Working(id, jid, {id})
      ensures f == Go ==> mem.runs[id].state == Destroyed && Gone(world, id)
    {
      hide Recorded, SafeTrace, Attended, Admits, Gone;
      f := SetState(id, jid, Destroying);
      if f != Go {
        return;
      }
      f := JobCall(QuiesceCall(id), id, jid, {id});
      if f == Dead {
        return;
      }
      f := Cleanup(id, jid);
      if f != Go {
        return;
      }
      f := SetState(id, jid, Destroyed);
    }

    /** `m5_fault_failure`: the run needs reconciliation and is quiesced. */
    method FaultFailure(id: RunId, x: FaultId, except: set<RunId>) returns (f: Flow)
      requires Tending(except) && id in mem.runs && x in mem.runs[id].faults
      requires mem.runs[id].faults[x].state != FaultQueued || (!serving && NoneWaiting(mem))
      modifies this`mem, this`disk, this`stopping, this`trace, this`acked
      ensures Grown(old(acked), acked)
      ensures Tending(except) && Tends(old(mem), mem)
      ensures forall r :: GuardOf(trace, r) == GuardOf(old(trace), r)
      ensures !serving ==> mem.jobs == old(mem).jobs && mem.runs.Keys == old(mem).runs.Keys
      ensures f == Go ==> (id in mem.runs ==> mem.runs[id].state != Ready) && trace == old(trace) + [QuiesceCall(id)]
    {
      hide Recorded, SafeTrace, Attended, Admits, Tends, RunCovers, RunOk, GuardOf, NoneWaiting, KeepsWaiting;
      Yield(except);
      AdmitsTends(old(mem), mem);
      FaultKnown(old(mem), mem, id, x);
      RunFacts(world, trace, acked, mem, id);
      SetFaultOk(world, id, mem.runs[id], x, RecoveryRequired);
      var r := Bumped(SetFault(mem.runs[id], x, RecoveryRequired).(state := Reconciling));
      SameRecordsOk(world, id, SetFault(mem.runs[id], x, RecoveryRequired), r);
      KeepsWaitingFault(mem.runs[id], r, x);
      label A:
      f := Update(id, r, except);
      TendsUpdate(old(mem), old@A(mem), id, r);
      if f != Go {
        return;
      }
      label B:
      f := Call(QuiesceCall(id), except);
      GuardNeutral(old(trace), QuiesceCall(id));
      TendsAdmits(old(mem), old@B(mem), mem);
      StaysUnready(old@B(mem), mem, id);
      if f == Dead {
        return;
      }
      label C:
      Yield(except);
      TendsAdmits(old(mem), old@C(mem), mem);
      StaysUnready(old@C(mem), mem, id);
      f := Save();
    }

    // ----- faults -----

    /** A fault whose qdisc is gone is recorded as removed. */
    method RecordExpired(id: RunId, x: FaultId, except: set<RunId>) returns (f: Flow)
      requires Tending(except) && PastQueue(mem, id, x) && (id, x) !in world.qdiscs
      modifies this`mem, this`disk, this`stopping, this`acked
      ensures Grown(old(acked), acked)
      ensures Tending(except) && Tends(old(mem), mem) && PastQueue(mem, id, x)
    {
      hide Recorded, SafeTrace, Attended, Admits, Tends, RunCovers, RunOk, GuardOf, NoneWaiting, KeepsWaiting;
      Yield(except);
      AdmitsTends(old(mem), mem);
      FaultKnown(old(mem), mem, id, x);
      RunFacts(world, trace, acked, mem, id);
      SetFaultOk(world, id, mem.runs[id], x, FaultRemoved);
      var r := Bumped(SetFault(mem.runs[id], x, FaultRemoved));
      SameRecordsOk(world, id, SetFault(mem.runs[id], x, FaultRemoved), r);
      KeepsWaitingFault(mem.runs[id], r, x);
      label A:
      f := Update(id, r, except);
      TendsUpdate(old(mem), old@A(mem), id, r);
    }

    /** One expired fault: announced as being removed, removed, recorded. */
    method ExpireFault(id: RunId, x: FaultId, except: set<RunId>) returns (f: Flow)
      requires Tending(except) && PastQueue(mem, id, x)
      modifies this`mem, this`disk, this`stopping, this`trace, this`world, this`acked
      ensures Grown(old(acked), acked)
      ensures Tending(except) && Tends(old(mem), mem)
      ensures forall r :: GuardOf(trace, r) == GuardOf(old(trace), r)
    {
      hide Recorded, SafeTrace, Attended, Admits, Tends, RunCovers, RunOk, GuardOf, NoneWaiting, KeepsWaiting;
      Yield(except);
      AdmitsTends(old(mem), mem);
      FaultKnown(old(mem), mem, id, x);
      RunFacts(world, trace, acked, mem, id);
      SetFaultOk(world, id, mem.runs[id], x, Removing);
      KeepsWaitingFault(mem.runs[id], SetFault(mem.runs[id], x, Removing), x);
      label A:
      f := Update(id, SetFault(mem.runs[id], x, Removing), except);
      TendsUpdate(old(mem), old@A(mem), id, mem.runs[id]);
      if f != Go {
        return;
      }
      label B:
      f := RemoveQdisc(id, x, except);
      FaultKnown(old@B(mem), mem, id, x);
      TendsAdmits(old(mem), old@B(mem), mem);
      GuardNeutral(old(trace), FaultCall(id, x, false));
      if f == Go {
        label C:
        f := RecordExpired(id, x, except);
        TendsTransitive(old(mem), old@C(mem), mem);
      }
      if f == Thrown {
        label D:
        f := FaultFailure(id, x, except);
        TendsTransitive(old(mem), old@D(mem), mem);
      }
    }

    /** `m5_monitor`: every active fault that has expired, then the periodic samples. */
    method MonitorFaults(except: set<RunId>) returns (f: Flow)
      requires Tending(except)
      modifies this`mem, this`disk, this`stopping, this`trace, this`world, this`acked
      ensures Grown(old(acked), acked)
      ensures Tending(except) && Tends(old(mem), mem)
      ensures forall r :: GuardOf(trace, r) == GuardOf(old(trace), r)
    {
      hide Recorded, SafeTrace, Attended, Admits, Tends, RunCovers, RunOk, GuardOf, NoneWaiting, KeepsWaiting;
      Yield(except);
      AdmitsTends(old(mem), mem);
      var todo := set r, x | r in mem.runs && x in mem.runs[r].faults :: (r, x);
      while todo != {}
        invariant Tending(except) && Tends(old(mem), mem) && Grown(old(acked), acked)
        invariant forall r :: GuardOf(trace, r) == GuardOf(old(trace), r)
        invariant forall p :: p in todo ==> p.0 in mem.runs && p.1 in mem.runs[p.0].faults
        decreases todo
      {
        label L:
        var p :| p in todo;
        todo := todo - {p};
        var expired: bool := *;
        if mem.runs[p.0].state != Destroyed && mem.runs[p.0].faults[p.1].state == Active && expired {
          f := ExpireFault(p.0, p.1, except);
          TendsTransitive(old(mem), old@L(mem), mem);
          if f != Go {
            return;
          }
          TendsFaults(old@L(mem), mem);
        }
      }
      label E:
      Yield(except);
      TendsAdmits(old(mem), old@E(mem), mem);
      var sampled: bool := *;
      if sampled {
        f := Save();
      } else {
        f := Go;
      }
    }

    /** `m5_execute`: apply or remove one fault, with its intent saved before the call. */
    method RunFault(id: RunId, jid: JobId, x: FaultId, apply: bool) returns (f: Flow)
      requires Working(id, jid, {}) && x in mem.runs[id].faults
      requires apply ==> mem.runs[id].faults[x].state == FaultQueued
      modifies this`mem, this`disk, this`stopping, this`trace, this`world, this`acked
      ensures Grown(old(acked), acked)
      ensures Tending({}) && Belongs(mem, id, jid)
      ensures f == Go ==>
                && x in mem.runs[id].faults && mem.jobs[jid].state in {Succeeded, Cancelled}
                && (Live(mem.runs[id].faults[x].state) <==> apply && mem.jobs[jid].state == Succeeded)
    {
      hide Recorded, SafeTrace, Attended, Admits, RunCovers, RunOk, HasFault;
      Pause(id, jid, {});
      RunFacts(world, trace, acked, mem, id);
      if apply && mem.jobs[jid].cancelRequested {
        QueuedHasNoQdisc(world, id, mem.runs[id], x);
        SetFaultOk(world, id, mem.runs[id], x, FaultCancelled);
        f := Finish(id, jid, SetFault(mem.runs[id], x, FaultCancelled), Cancelled, {});
        return;
      }
      if !apply && !Live(mem.runs[id].faults[x].state) {
        f := Finish(id, jid, mem.runs[id], Succeeded, {});
        return;
      }
      var announced := if apply then Applying else Removing;
      SetFaultOk(world, id, mem.runs[id], x, announced);
      f := Change(id, jid, SetFault(mem.runs[id], x, announced), {});
      if f != Go {
        return;
      }
      label A:
      if apply {
        AnnouncedIsKnown(mem.runs[id], x);
        f := ApplyQdisc(id, x, {});
      } else {
        f := RemoveQdisc(id, x, {});
      }
      OnJobAdmits(old@A(mem), mem, id, jid);
      if f != Go {
        return;
      }
      Pause(id, jid, {});
      f := ConcludeFault(id, jid, x, apply, apply && mem.jobs[jid].cancelRequested);
    }

    /** The readback of `m5_execute`; a cancelled application is taken back first. */
    method ConcludeFault(id: RunId, jid: JobId, x: FaultId, apply: bool, cancel: bool) returns (f: Flow)
      requires Working(id, jid, {}) && x in mem.runs[id].faults
      requires !apply ==> (id, x) !in world.qdiscs
      requires cancel ==> apply
      modifies this`mem, this`disk, this`stopping, this`trace, this`world, this`acked
      ensures Grown(old(acked), acked)
      ensures Tending({}) && Belongs(mem, id, jid)
      ensures f == Go ==>
                && x in mem.runs[id].faults && mem.jobs[jid].state == (if cancel then Cancelled else Succeeded)
                && (Live(mem.runs[id].faults[x].state) <==> apply && !cancel)
    {
      hide Recorded, SafeTrace, Attended, Admits, RunCovers, RunOk;
      label A:
      if cancel {
        f := RemoveQdisc(id, x, {});
        OnJobAdmits(old@A(mem), mem, id, jid);
        if f != Go {
          return;
        }
      }
      Pause(id, jid, {});
      RunFacts(world, trace, acked, mem, id);
      var s := if cancel then FaultCancelled else if apply then Active else FaultRemoved;
      SetFaultOk(world, id, mem.runs[id], x, s);
      f := Finish(id, jid, SetFault(mem.runs[id], x, s), if cancel then Cancelled else Succeeded, {});
    }

    // ----- whole jobs -----

    /** Watching over faults in the middle of a job. */
    method MonitorInJob(id: RunId, jid: JobId) returns (f: Flow)
      requires Working(id, jid, {id})
      modifies this`mem, this`disk, this`stopping, this`trace, this`world, this`acked
      ensures Grown(old(acked), acked)
      ensures Working(id, jid, {id})
      ensures RunTends(old(mem).runs[id], mem.runs[id])
      ensures GuardOf(trace, id) == GuardOf(old(trace), id)
    {
      hide Recorded, SafeTrace, Attended, Admits, GuardOf;
      f := MonitorFaults({id});
    }

    /** The first half of a resume: a stopped run is armed anew and activated. */
    method Revive(id: RunId, jid: JobId) returns (f: Flow)
      requires Working(id, jid, {id})
      modifies this`mem, this`disk, this`stopping, this`trace, this`world, this`acked
      ensures Grown(old(acked), acked)
      ensures Working(id, jid, {id})
      ensures f == Go && mem.runs[id].topology.captured ==> GuardOf(trace, id) == ArmedAt(mem.runs[id].epoch)
    {
      hide Recorded, SafeTrace, Attended, Admits, GuardOf;
      f := MonitorInJob(id, jid);
      if f != Go {
        return;
      }
      Pause(id, jid, {id});
      if mem.runs[id].state != Stopped {
        return Thrown;
      }
      f := Arm(id, jid);
      if f != Go {
        return;
      }
      ghost var t := trace;
      f := JobCall(OtherCall, id, jid, {id}); // activate
      GuardStep(t, OtherCall, id);
    }

    /** `resume`: new captures and a clean bill of faults before traffic flows again. */
    method ResumeRunning(id: RunId, jid: JobId) returns (f: Flow)
      requires Working(id, jid, {id})
      modifies this`mem, this`disk, this`stopping, this`trace, this`world, this`acked
      ensures Grown(old(acked), acked)
      ensures Working(id, jid, {id})
      ensures f == Go ==> Settled(trace, mem, id)
    {
      hide Recorded, SafeTrace, Attended, Admits, GuardOf;
      f := Revive(id, jid);
      if f != Go {
        return;
      }
      if mem.runs[id].topology.captured {
        f := JobStatus(id, jid);
        if f != Go {
          return;
        }
      }
      f := MonitorInJob(id, jid);
      if f != Go {
        return;
      }
      Pause(id, jid, {id});
      if mem.runs[id].state == Reconciling {
        return Thrown;
      }
      ghost var t := trace;
      var e := ReleaseCall(id, mem.runs[id].epoch, mem.runs[id].topology.captured);
      f := JobCall(e, id, jid, {id});
      GuardStep(t, e, id);
      if f != Go {
        return;
      }
      f := SetState(id, jid, Ready);
    }

    /** The end of every run operation: one more observation, then success. */
    method Conclude(id: RunId, jid: JobId) returns (f: Flow)
      requires Working(id, jid, {id}) && Settled(trace, mem, id)
      modifies this`mem, this`disk, this`stopping, this`trace, this`acked
      ensures Grown(old(acked), acked)
      ensures Tending({id}) && Belongs(mem, id, jid)
      ensures Settled(trace, mem, id) && mem.runs[id].state == old(mem).runs[id].state
      ensures f == Go ==> mem.jobs[jid].state == Succeeded
    {
      hide Recorded, SafeTrace, Attended, Admits, RunCovers, RunOk, GuardOf;
      f := JobCall(OtherCall, id, jid, {id}); // observe
      GuardStep(old(trace), OtherCall, id);
      if f != Go {
        return;
      }
      Pause(id, jid, {id});
      RunFacts(world, trace, acked, mem, id);
      var q := mem.runs[id];
      var coverage := if !q.topology.captured then q.coverage else if q.state == Ready then Recording
                      else if q.coverage == ClosedIncomplete then ClosedIncomplete else Closed;
      SameRecordsOk(world, id, q, q.(coverage := coverage));
      f := Finish(id, jid, q.(coverage := coverage), Succeeded, {id});
    }

    /** `execute`. A destroy or recover that succeeds leaves nothing of the run. */
    method Execute(id: RunId, jid: JobId) returns (f: Flow)
      requires Working(id, jid, {}) && JobReady(mem, jid)
      modifies this`mem, this`disk, this`stopping, this`trace, this`world, this`acked
      ensures Grown(old(acked), acked)
      ensures Tending({id}) && Belongs(mem, id, jid)
      ensures f == Go ==> Tending({})
      ensures f == Go && old(mem).jobs[jid].operation in {Destroy, Recover} ==>
                mem.runs[id].state == Destroyed && mem.jobs[jid].state == Succeeded && Gone(world, id)
    {
      hide Recorded, SafeTrace, Attended, Admits, GuardOf, Gone;
      var op := mem.jobs[jid].operation;
      AttendedMore(trace, mem, {id});
      if op.FaultApply? || op.FaultRemove? {
        f := RunFault(id, jid, op.fault, op.FaultApply?);
        AttendedMore(trace, mem, {id});
        return;
      }
      var done := false;
      if op == Start {
        f, done := StartRunning(id, jid);
      } else if op == Stop {
        f := StopRunning(id, jid);
      } else if op == Resume {
        f := ResumeRunning(id, jid);
      } else {
        f := DestroyRun(id, jid);
      }
      if f != Go {
        return;
      }
      if !done {
        f := Conclude(id, jid);
      }
      if f == Go {
        assert {} + {id} == {id};
        AttendedAgain(trace, mem, id, {});
      }
    }

    /** The handler around `execute`: the run needs reconciliation and the job has failed. */
    method FailJob(id: RunId, jid: JobId) returns (f: Flow)
      requires Tending({id}) && Belongs(mem, id, jid)
      modifies this`mem, this`disk, this`stopping, this`trace, this`acked
      ensures Grown(old(acked), acked)
      ensures Safe()
      ensures f == Go ==> Tending({}) && Belongs(mem, id, jid)
                          && mem.runs[id].state == Reconciling && mem.jobs[jid].state == Failed
    {
      hide Recorded, SafeTrace, Attended, Admits, RunCovers, RunOk, KeepsWaiting, NoneWaiting, GuardOf;
      f := Call(QuiesceCall(id), {id});
      BelongsAdmits(old(mem), mem, id, jid);
      if f == Dead {
        return;
      }
      label A:
      Yield({id});
      BelongsAdmits(old@A(mem), mem, id, jid);
      RunFacts(world, trace, acked, mem, id);
      var q := mem.runs[id];
      var r := q.(state := Reconciling, coverage := if q.topology.captured then Incomplete else q.coverage);
      SameRecordsOk(world, id, q, r);
      SameWaiting(q, r);
      var a := mem.(runs := mem.runs[id := r]);
      var b := WithState(a, jid, Failed);
      RecordedRun(world, trace, acked, mem, id, r);
      AttendedRun(trace, mem, id, r, {id});
      RecordedJob(world, trace, acked, a, jid, Failed);
      AttendedJobs(trace, a, b, {id});
      mem := b;
      f := Save();
      if f != Go {
        return Dead;
      }
      assert {} + {id} == {id};
      AttendedAgain(trace, mem, id, {});
    }

    /** `monitor`: captured runs keep their traffic lease only while every capture is healthy. */
    method Monitor() returns (f: Flow)
      requires Tending({})
      modifies this`mem, this`disk, this`stopping, this`trace, this`world, this`acked
      ensures Grown(old(acked), acked)
      ensures Safe() && (f == Go ==> Tending({})) && f != Thrown
    {
      hide Recorded, SafeTrace, Attended, Admits, GuardOf;
      f := MonitorFaults({});
      if f == Dead {
        return;
      }
      if f == Thrown {
        Yield({});
        f := Save();
        if f != Go {
          return Dead;
        }
      }
      Yield({});
      var watched := set r | r in mem.runs && mem.runs[r].state == Ready
                             && (mem.runs[r].topology.captured || HasGuest(mem.runs[r]));
      if watched == {} {
        return Go;
      }
      var id :| id in watched;
      f := Renew(id);
      if f == Thrown {
        f := HealthFailed(id);
      }
    }

    /** The healthy path of `monitor` for one ready run. */
    method Renew(id: RunId) returns (f: Flow)
      requires Tending({}) && id in mem.runs && mem.runs[id].state == Ready
      modifies this`mem, this`disk, this`stopping, this`trace, this`acked
      ensures Grown(old(acked), acked)
      ensures Tending({id}) && id in mem.runs
      ensures f == Go ==> Tending({})
    {
      hide Recorded, SafeTrace, Admits, GuardOf;
      var captured, epoch := mem.runs[id].topology.captured, mem.runs[id].epoch;
      assert captured ==> GuardOf(trace, id) == HealthyAt(epoch);
      AttendedMore(trace, mem, {id});
      hide Attended;
      if captured {
        f := Status(id, {id});
        RunStays(old(mem), mem, id);
        GuardStep(old(trace), StatusCall(id, f == Go), id);
        if f != Go {
          return;
        }
      }
      label A:
      ghost var t := trace;
      f := Call(RenewCall(id, captured), {id});
      RunStays(old@A(mem), mem, id);
      GuardStep(t, RenewCall(id, captured), id);
      if f != Go {
        return;
      }
      label B:
      Yield({id});
      RunStays(old@B(mem), mem, id);
      f := Save();
      if f == Go {
        assert {} + {id} == {id};
        AttendedAgain(trace, mem, id, {});
      }
    }

    /** The failure path of `monitor`: quiesce, and the run needs reconciliation. */
    method HealthFailed(id: RunId) returns (f: Flow)
      requires Tending({id}) && id in mem.runs
      modifies this`mem, this`disk, this`stopping, this`trace, this`acked
      ensures Grown(old(acked), acked)
      ensures Safe() && f != Thrown
      ensures f == Go ==> Tending({}) && id in mem.runs && mem.runs[id].state == Reconciling
    {
      hide Recorded, SafeTrace, Attended, Admits, RunCovers, RunOk, KeepsWaiting, NoneWaiting, GuardOf;
      f := Call(QuiesceCall(id), {id});
      RunStays(old(mem), mem, id);
      if f == Dead {
        return;
      }
      label A:
      Yield({id});
      RunStays(old@A(mem), mem, id);
      RunFacts(world, trace, acked, mem, id);
      var r := mem.runs[id].(state := Reconciling, coverage := Incomplete);
      SameRecordsOk(world, id, mem.runs[id], r);
      SameWaiting(mem.runs[id], r);
      f := Update(id, r, {id});
      if f != Go {
        return Dead;
      }
      assert {} + {id} == {id};
      AttendedAgain(trace, mem, id, {});
    }

    /** One turn of the worker loop: the queued job if there is one, else watching. */
    method Work() returns (f: Flow)
      requires Tending({})
      modifies this`mem, this`disk, this`stopping, this`trace, this`world, this`acked
      ensures Grown(old(acked), acked)
      ensures Safe() && (f == Go ==> Tending({})) && f != Thrown
    {
      hide Recorded, SafeTrace, Attended, Admits, GuardOf;
      Yield({});
      if stopping {
        return Dead;
      }
      var queued := set x | x in mem.jobs && mem.jobs[x].state == Queued;
      if queued == {} {
        f := Monitor();
        return;
      }
      var jid :| jid in queued;
      var id := mem.jobs[jid].run;
      f := BeginJob(jid);
      if f != Go {
        return Dead;
      }
      f := Execute(id, jid);
      if f == Thrown {
        f := FailJob(id, jid);
        f := if f == Go then Go else Dead;
      }
    }

    /** A queued job is saved as running before anything is done for it. */
    method BeginJob(jid: JobId) returns (f: Flow)
      requires Tending({}) && jid in mem.jobs && mem.jobs[jid].state == Queued
      modifies this`mem, this`disk, this`stopping, this`trace, this`acked
      ensures Grown(old(acked), acked)
      ensures Tending({}) && jid in mem.jobs && mem.jobs[jid].run == old(mem).jobs[jid].run
      ensures f == Go ==> Working(mem.jobs[jid].run, jid, {}) && JobReady(mem, jid)
      ensures f == Go ==> trace == old(trace) + [JobStarted(jid)]
    {
      hide Recorded, SafeTrace, Attended, GuardOf, Permitted;
      JobFacts(world, trace, acked, mem, jid);
      RecordedJob(world, trace, acked, mem, jid, Running);
      AttendedJobs(trace, mem, WithState(mem, jid, Running), {});
      mem := WithState(mem, jid, Running);
      f := Save();
      if f == Go {
        FirstStart(trace, jid);
        AttendedEffect(trace, JobStarted(jid), mem, {});
        RecordedStart(world, trace, acked, mem, jid);
        trace := trace + [JobStarted(jid)];
      }
    }

    // ----- start-up and the whole life of the agent -----

    /** Jobs that were pending when the agent died have failed, and their runs need reconciliation. */
    method FailPending()
      requires Safe()
      modifies this`mem
      ensures Safe() && NoneWaiting(mem)
    {
      hide Recorded, SafeTrace, RunCovers, RunOk, KeepsWaiting;
      var todo := mem.jobs.Keys;
      while todo != {}
        invariant Safe() && todo <= mem.jobs.Keys
        invariant forall x :: x in mem.jobs && x !in todo ==> !PendingJob(mem.jobs[x])
        decreases todo
      {
        var x :| x in todo;
        todo := todo - {x};
        if PendingJob(mem.jobs[x]) {
          JobHasRun(world, trace, acked, mem, x);
          var id := mem.jobs[x].run;
          RunFacts(world, trace, acked, mem, id);
          var r := mem.runs[id].(state := Reconciling);
          SameRecordsOk(world, id, mem.runs[id], r);
          SameWaiting(mem.runs[id], r);
          RecordedRun(world, trace, acked, mem, id, r);
          var a := mem.(runs := mem.runs[id := r]);
          RecordedJob(world, trace, acked, a, x, Failed);
          mem := WithState(a, x, Failed);
        }
      }
    }

    /** One run at start-up: a new controller generation is saved before any worker
        is adopted, and a captured run is never left ready. */
    method AdoptRun(id: RunId, except: set<RunId>) returns (f: Flow)
      requires Tending(except) && id in except && id in mem.runs && !serving
      modifies this`mem, this`disk, this`stopping, this`trace, this`acked
      ensures Grown(old(acked), acked)
      ensures Tending(except) && mem.jobs == old(mem).jobs && mem.runs.Keys == old(mem).runs.Keys
      ensures f == Go ==> !(mem.runs[id].state == Ready && mem.runs[id].topology.captured)
      ensures f == Go ==> mem.runs[id] == old(mem).runs[id] || mem.runs[id].generation == old(mem).runs[id].generation + 1
    {
      hide Recorded, SafeTrace, Attended, RunCovers, RunOk, KeepsWaiting, NoneWaiting, HasGuest;
      var q := mem.runs[id];
      var sessions: bool := *;
      if q.state == Destroyed || (!q.topology.captured && !HasGuest(q) && !sessions) {
        return Go;
      }
      var stopped, closed := q.state == Stopped, q.coverage in {Closed, ClosedIncomplete};
      var r := q.(generation := q.generation + 1, state := Reconciling,
                  coverage := if !closed && q.coverage != Incomplete then Interrupted else q.coverage);
      f := UpdateSame(id, r, except);
      if f != Go {
        return Dead;
      }
      f := AdoptWorkers(id, closed, except);
      if f == Dead {
        return;
      }
      var n := if f == Thrown then r.(coverage := Incomplete) else if stopped && closed then r.(state := Stopped) else r;
      f := UpdateSame(id, n, except);
      if f != Go {
        return Dead;
      }
    }

    /** The capture workers are adopted unless their captures are closed, then traffic is held. */
    method AdoptWorkers(id: RunId, closed: bool, except: set<RunId>) returns (f: Flow)
      requires Tending(except) && !serving
      modifies this`mem, this`disk, this`stopping, this`trace, this`acked
      ensures Grown(old(acked), acked)
      ensures Tending(except) && mem == old(mem)
    {
      hide Recorded, SafeTrace, Attended, Admits, GuardOf;
      f := Go;
      if !closed {
        f := Call(OtherCall, except);
      }
      if f == Go {
        f := Call(QuiesceCall(id), except);
      }
    }

    /** A change of a run that leaves its resources, captures and faults alone. */
    method UpdateSame(id: RunId, r: Run, except: set<RunId>) returns (f: Flow)
      requires Tending(except) && id in except && id in mem.runs
      requires r.resources == mem.runs[id].resources && r.captures == mem.runs[id].captures
      requires r.faults == mem.runs[id].faults && r.topology == mem.runs[id].topology
      modifies this`mem, this`disk, this`stopping, this`acked
      ensures Grown(old(acked), acked)
      ensures Tending(except) && mem == old(mem).(runs := old(mem).runs[id := r])
    {
      hide Recorded, SafeTrace, Attended, RunCovers, RunOk, KeepsWaiting, NoneWaiting;
      RunFacts(world, trace, acked, mem, id);
      SameRecordsOk(world, id, mem.runs[id], r);
      SameWaiting(mem.runs[id], r);
      f := Update(id, r, except);
    }

    /** `m5_recover` for one live fault. */
    method RecoverFault(id: RunId, x: FaultId) returns (f: Flow)
      requires Tending({}) && id in mem.runs && x in mem.runs[id].faults && !serving && NoneWaiting(mem)
      modifies this`mem, this`disk, this`stopping, this`trace, this`world, this`acked
      ensures Grown(old(acked), acked)
      ensures Tending({}) && NoneWaiting(mem) && Tends(old(mem), mem)
    {
      hide Recorded, SafeTrace, Attended, RunCovers, RunOk, KeepsWaiting, Tends, GuardOf, Admits;
      f := RemoveQdisc(id, x, {});
      TendsReflexive(mem);
      if f == Go {
        RunFacts(world, trace, acked, mem, id);
        SetFaultOk(world, id, mem.runs[id], x, FaultRemoved);
        var r := SetFault(mem.runs[id], x, FaultRemoved);
        RecordedRun(world, trace, acked, mem, id, r);
        AttendedRun(trace, mem, id, r, {});
        TendsUpdate(old(mem), mem, id, r);
        mem := mem.(runs := mem.runs[id := r]);
      } else if f == Thrown {
        f := FaultFailure(id, x, {});
      }
    }

    /** The constructor of the original: what was interrupted is failed, every run is
        adopted or left for recovery, and doubtful faults are removed. */
    method Restart() returns (f: Flow)
      requires Safe()
      modifies this`mem, this`disk, this`stopping, this`serving, this`trace, this`world, this`acked
      ensures Grown(old(acked), acked)
      ensures Safe() && f != Thrown
      ensures f == Go ==> Tending({}) && serving && NoneWaiting(mem)
    {
      hide Recorded, SafeTrace, Attended, GuardOf, NoneWaiting, Tends, HasGuest;
      acked := Adopted(world, trace, acked, disk);
      mem, stopping, serving := disk, false, false;
      RestartTrace(world, trace, acked, mem);
      trace := trace + [Restarted];
      FailPending();
      f := Save();
      if f != Go {
        return Dead;
      }
      var todo := mem.runs.Keys;
      AttendedNone(trace, mem);
      while todo != {}
        invariant Tending(todo) && todo <= mem.runs.Keys && !serving && NoneWaiting(mem) && Grown(old(acked), acked)
        decreases todo
      {
        label L:
        var id :| id in todo;
        f := AdoptRun(id, todo);
        if f != Go {
          return Dead;
        }
        NoneWaitingJobs(old@L(mem), mem);
        assert todo == (todo - {id}) + {id};
        AttendedAgain(trace, mem, id, todo - {id});
        todo := todo - {id};
      }
      f := RecoverFaults();
      if f != Go {
        return Dead;
      }
      f := Save();
      if f != Go {
        return Dead;
      }
      serving := true;
    }

    method RecoverFaults() returns (f: Flow)
      requires Tending({}) && !serving && NoneWaiting(mem)
      modifies this`mem, this`disk, this`stopping, this`trace, this`world, this`acked
      ensures Grown(old(acked), acked)
      ensures Tending({}) && NoneWaiting(mem)
    {
      hide Recorded, SafeTrace, Attended, GuardOf, NoneWaiting, Tends;
      var todo := set r, x | r in mem.runs && x in mem.runs[r].faults :: (r, x);
      while todo != {}
        invariant Tending({}) && !serving && NoneWaiting(mem) && Grown(old(acked), acked)
        invariant forall p :: p in todo ==> p.0 in mem.runs && p.1 in mem.runs[p.0].faults
        decreases todo
      {
        label L:
        var p :| p in todo;
        todo := todo - {p};
        var expired: bool := *;
        if mem.runs[p.0].state != Destroyed && Live(mem.runs[p.0].faults[p.1].state)
           && (expired || mem.runs[p.0].faults[p.1].state != Active) {
          f := RecoverFault(p.0, p.1);
          if f != Go {
            return Dead;
          }
          TendsFaults(old@L(mem), mem);
        }
      }
      return Go;
    }

    /** Any life of the agent from what it left on disk: starts, requests, turns of the
        worker, and deaths at any point, in any order and number. `Safe` holds
        throughout. Acknowledgements only accumulate, starting from every receipt that was
        on disk, and the journal on disk bears all of them out. */
    method Lifetime(turns: nat)
      requires Safe()
      modifies this
      ensures Safe()
      ensures Grown(old(acked), acked) && Remembers(acked, disk)
      ensures forall k :: k in old(disk).keys ==> k in acked && k in disk.keys && disk.keys[k] == old(disk).keys[k]
    {
      hide Recorded, SafeTrace, Attended, Remembers, Grown;
      ghost var found := Adopted(world, trace, acked, disk);
      GrownTransitive(acked, found, found);
      mem, acked := disk, found;
      var alive := false;
      for i := 0 to turns
        invariant Safe() && (alive ==> Tending({})) && Grown(found, acked)
      {
        ghost var before := acked;
        var killed: bool := *;
        var busy: bool := *;
        if !alive {
          var f := Restart();
          alive := f == Go;
        } else if killed {
          alive := false;
        } else if busy {
          var f := Work();
          alive := f == Go;
        } else {
          Yield({});
        }
        GrownTransitive(found, before, acked);
      }
      RecordedRemembers(world, trace, acked, disk);
      GrownTransitive(old(acked), found, acked);
      StillThere(old(disk), found, acked, disk);
    }
  }

  /** A run's record without its revision, the one field that requests may change. */
  function Masked(r: Run): Run {
    r.(revision := 0)
  }

  /** Job `jid` belongs to run `id`, in whatever state it is. */
  ghost predicate Belongs(j: Journal, id: RunId, jid: JobId) {
    id in j.runs && jid in j.jobs && j.jobs[jid].run == id
  }

  /** Admission makes no run ready. */
  lemma StaysUnready(a: Journal, b: Journal, id: RunId)
    requires Admits(a, b) && id in a.runs && a.runs[id].state != Ready
    ensures id in b.runs && b.runs[id].state != Ready
  {
  }

  lemma BelongsAdmits(a: Journal, b: Journal, id: RunId, jid: JobId)
    requires Belongs(a, id, jid) && Admits(a, b)
    ensures Belongs(b, id, jid)
  {
    hide RunAdmits, NewlyAdmitted, Busy;
  }

  predicate HasGuest(r: Run) {
    exists i :: 0 <= i < |r.resources| && r.resources[i].key.Node? && r.resources[i].key.name in r.topology.guests
  }

  /** A captured run that is ready has healthy captures of its current epoch. */
  ghost predicate Settled(t: seq<Effect>, j: Journal, id: RunId)
    requires id in j.runs
  {
    j.runs[id].state == Ready && j.runs[id].topology.captured ==> GuardOf(t, id) == HealthyAt(j.runs[id].epoch)
  }

  /** What `arm` may change of a run. */
  ghost predicate Rearmed(a: Run, b: Run) {
    Masked(b) == Masked(a).(captures := b.captures, history := b.history, epoch := b.epoch, coverage := b.coverage, state := b.state)
  }

  lemma NoWorkers(w: World, id: RunId, r: Run)
    requires RunCovers(w, id, r) && RunOk(r) && (r.captures == [] || !r.topology.captured)
    ensures forall c :: (id, c) !in w.workers
  {
    hide Resources;
  }

  lemma GuardLast(t: seq<Effect>, r: RunId)
    requires t != []
    ensures GuardOf(t, r) == After(GuardOf(t[..|t| - 1], r), t[|t| - 1], r)
  {
  }

  /** While one job runs no other is pending. */
  lemma OnlyJob(j: Journal, id: RunId, jid: JobId)
    requires Consistent(j) && OnJob(j, id, jid)
    ensures NoneWaiting(j)
  {
    hide RunOk, KeysOk;
    assert PendingJob(j.jobs[jid]);
    assert forall x :: x in j.jobs && j.jobs[x].state == Queued ==> PendingJob(j.jobs[x]);
  }

  lemma OnlyJobRecorded(w: World, t: seq<Effect>, acked: map<Key, Ack>, j: Journal, id: RunId, jid: JobId)
    requires Recorded(w, t, acked, j) && OnJob(j, id, jid)
    ensures NoneWaiting(j)
  {
    hide Covered, Consistent, StartsKnown, Remembers;
    OnlyJob(j, id, jid);
  }

  /** At a start, everything on disk counts as acknowledged. */
  lemma Adopted(w: World, t: seq<Effect>, acked: map<Key, Ack>, j: Journal) returns (found: map<Key, Ack>)
    requires Recorded(w, t, acked, j)
    ensures Recorded(w, t, found, j) && Grown(acked, found) && Grown(found, found)
    ensures forall k :: k in j.keys ==> k in found && j.keys[k] == Receipt(found[k].digest, found[k].job)
  {
    hide Covered, StartsKnown;
    forall k | k in j.keys ensures j.keys[k].job in j.jobs {
      KeyHasJob(j, k);
    }
    found := AcksOf(j);
  }

  /** A saved acceptance may be acknowledged. */
  lemma RecordedAck(w: World, t: seq<Effect>, acked: map<Key, Ack>, j: Journal, key: Key, told: Ack)
    requires Recorded(w, t, acked, j) && key in j.keys && j.keys[key] == Receipt(told.digest, told.job)
    requires told.job in j.jobs && j.jobs[told.job].run == told.run
    ensures Recorded(w, t, acked[key := told], j) && Grown(acked, acked[key := told])
  {
    hide Covered, Consistent, StartsKnown;
  }

  lemma StillThere(before: Journal, found: map<Key, Ack>, acked: map<Key, Ack>, j: Journal)
    requires Grown(found, acked) && Remembers(acked, j)
    requires forall k :: k in before.keys ==> k in found && before.keys[k] == Receipt(found[k].digest, found[k].job)
    ensures forall k :: k in before.keys ==> k in acked && k in j.keys && j.keys[k] == before.keys[k]
  {
  }

  lemma RecordedRemembers(w: World, t: seq<Effect>, acked: map<Key, Ack>, j: Journal)
    requires Recorded(w, t, acked, j)
    ensures Remembers(acked, j)
  {
  }

  lemma HasResourceAdmits(a: Journal, b: Journal, id: RunId, k: ResourceKey)
    requires Admits(a, b) && id in a.runs && HasResource(a.runs[id], k)
    ensures id in b.runs && HasResource(b.runs[id], k)
  {
    hide NewlyAdmitted, Busy;
    assert RunAdmits(a.runs[id], b.runs[id]);
  }

  lemma HasFaultAdmits(a: Journal, b: Journal, id: RunId, f: FaultId)
    requires Admits(a, b) && id in a.runs && HasFault(a.runs[id], f)
    ensures id in b.runs && HasFault(b.runs[id], f)
  {
    hide NewlyAdmitted, Busy;
    assert RunAdmits(a.runs[id], b.runs[id]);
  }

  lemma CapturesAdmit(a: Journal, b: Journal, id: RunId)
    requires Admits(a, b) && id in a.runs
    ensures id in b.runs && b.runs[id].captures == a.runs[id].captures
  {
    hide NewlyAdmitted, Busy;
    assert RunAdmits(a.runs[id], b.runs[id]);
  }

  lemma FreshJob(j: Journal, ids: FreshIds)
    requires FreshFor(j, ids)
    ensures ids.job !in j.jobs
  {
  }

  function Cancelled'(j: Journal, x: JobId): Journal
    requires x in j.jobs
  {
    j.(jobs := j.jobs[x := j.jobs[x].(cancelRequested := true)])
  }

  lemma CancelKeys(j: Journal, x: JobId)
    requires KeysOk(j.jobs, j.keys) && x in j.jobs
    ensures KeysOk(Cancelled'(j, x).jobs, j.keys)
  {
    SameJobKeys(j.jobs, Cancelled'(j, x).jobs, j.keys);
  }

  lemma CancelJobs(j: Journal, x: JobId)
    requires JobsOk(j) && x in j.jobs
    ensures JobsOk(Cancelled'(j, x))
  {
    var n := Cancelled'(j, x);
    forall y, z | y in n.jobs && z in n.jobs && PendingJob(n.jobs[y]) && PendingJob(n.jobs[z]) ensures y == z {
      assert PendingJob(j.jobs[y]) && PendingJob(j.jobs[z]);
    }
  }

  lemma CancelAdmits(j: Journal, x: JobId)
    requires x in j.jobs
    ensures Admits(j, Cancelled'(j, x))
  {
  }

  lemma CancelOk(j: Journal, x: JobId)
    requires Consistent(j) && x in j.jobs
    ensures Admits(j, Cancelled'(j, x)) && Consistent(Cancelled'(j, x))
  {
    hide RunOk, KeysOk, JobsOk, Admits;
    CancelKeys(j, x);
    CancelJobs(j, x);
    CancelAdmits(j, x);
  }

  function AllFaults(j: Journal): set<FaultId> {
    set r, f | r in j.runs && f in j.runs[r].faults :: f
  }

  lemma AllFaultsOk(j: Journal)
    ensures forall r, f :: r in j.runs && f in j.runs[r].faults ==> f in AllFaults(j)
  {
  }

  /** Some identifier outside a finite set: the random identifiers of the original. */
  method Unused(s: set<nat>) returns (n: nat)
    ensures n !in s
  {
    n := 0;
    var rest := s;
    while rest != {}
      invariant rest <= s && forall x :: x in s && x !in rest ==> x < n
      decreases rest
    {
      var x :| x in rest;
      n := if x < n then n else x + 1;
      rest := rest - {x};
    }
  }
}
