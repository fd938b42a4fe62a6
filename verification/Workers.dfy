/** Long-lived workers and the controllers that command them: generations fence off superseded
    controllers, and a virtual machine runs only under a lease. */
module Workers {
  import opened Options
  import opened WriterLease

  const LEASE := 10

  datatype Operation = Adopt | Close | Status | Release | Renew | Quiesce | RevokeWriter | Rotate | Stop | Other

  datatype Reply = Done | StaleController | LeaseExpired | Failed

  /** A command that passed the fence, with its controller's generation. */
  datatype Command = Command(generation: nat, operation: Operation, reply: Reply)

  // ----- fencing -----

  /** Commands take effect in the order of their controllers; an adoption is always by a new one. */
  ghost predicate Fenced(trace: seq<Command>, generation: nat) {
    && (forall i :: 0 <= i < |trace| ==> trace[i].generation <= generation)
    && (forall i, j :: 0 <= i < j < |trace| ==>
          trace[i].generation <= trace[j].generation
          && (trace[j].operation == Adopt ==> trace[i].generation < trace[j].generation))
  }

  /** No command of a controller takes effect after another one was adopted. */
  lemma NoSupersededCommand(trace: seq<Command>, generation: nat, i: nat, j: nat, k: nat)
    requires Fenced(trace, generation) && i < j < k < |trace| && trace[j].operation == Adopt
    ensures trace[i].generation != trace[k].generation
  {
    assert trace[i].generation < trace[j].generation <= trace[k].generation;
  }

  lemma FencedMore(trace: seq<Command>, before: nat, c: Command)
    requires Fenced(trace, before) && before <= c.generation && (c.operation == Adopt ==> before < c.generation)
    ensures Fenced(trace + [c], c.generation)
  {
  }

  // ----- the worker of a virtual machine -----

  const WATCHDOG := 5
  const STARTUP := 10

  /** How the calls of one step to the machine monitor and to the disk turn out. */
  datatype Luck = Luck(sent: bool, stopped: bool, confirmed: bool, recorded: bool, started: bool, acknowledged: bool,
                       persisted: bool)

  class VmWorker {
    var generation: nat
    var leased: bool
    var deadline: nat
    /** The worker's process is there. */
    var alive: bool
    /** The machine runs in a container of its own; otherwise it is the worker's child. */
    const runner: bool
    const born: nat
    var heartbeat: Option<nat>
    const writer: Lease
    /** Whether the machine runs, the generation that last released it, the generation whose
        adoption last succeeded, and whether the machine ran when the worker ended. */
    ghost var running: bool
    ghost var released: nat
    ghost var adopted: nat
    ghost var outlived: bool
    ghost var trace: seq<Command>

    ghost predicate Valid()
      reads this, writer
    {
      && writer.Valid() && Fenced(trace, generation) && adopted <= generation
      && (alive && running ==> leased && adopted <= released <= generation)
      && (!alive && running ==> runner && outlived)
    }

    constructor (g: nat, inContainer: bool, now: nat)
      ensures Valid() && fresh(writer) && generation == g && adopted == g && alive && !leased && !running && trace == []
      ensures runner == inContainer && born == now && heartbeat == None
    {
      writer := new Lease();
      generation, leased, deadline, alive := g, false, 0, true;
      runner, born, heartbeat := inContainer, now, None;
      running, released, adopted, outlived, trace := false, 0, g, false, [];
    }

    /** The worker ends. Its child dies with it; a machine in a container does not notice. */
    method End()
      requires Valid() && alive
      modifies this`alive, this`running, this`outlived
      ensures Valid() && !alive && running == (old(running) && runner) && outlived == running
    {
      alive := false;
      running := running && runner;
      outlived := running;
    }

    /** The container's watchdog kills the machine when heartbeats stop coming. */
    method Watch(now: nat)
      requires Valid()
      modifies this`running
      ensures Valid() && (running ==> old(running))
      ensures runner && running ==>
        if heartbeat.Some? then heartbeat.value <= now <= heartbeat.value + WATCHDOG else now <= born + STARTUP
      ensures !runner ==> running == old(running)
    {
      if runner && ((heartbeat.Some? && (heartbeat.value > now || now - heartbeat.value > WATCHDOG))
                    || (heartbeat.None? && now > born + STARTUP)) {
        running := false;
      }
    }

    /** Stops the machine and confirms that it stopped; the lease ends only then. */
    method Pause(luck: Luck) returns (thrown: bool)
      requires Valid() && alive
      modifies this`leased, this`running
      ensures Valid()
      ensures thrown <==> !(luck.sent && luck.stopped && luck.confirmed && luck.recorded)
      ensures running == (old(running) && !(luck.sent && luck.stopped))
      ensures leased == (old(leased) && !(luck.sent && luck.stopped && luck.confirmed))
    {
      if !luck.sent {
        return true;
      }
      running := running && !luck.stopped;
      if !luck.confirmed || !luck.stopped {
        return true;
      }
      leased := false;
      thrown := !luck.recorded;
    }

    /** Runs at every turn of the worker's loop: the heartbeat, then the lease. A machine whose
        expired lease cannot be ended by a pause loses its worker. */
    method Tick(now: nat, luck: Luck)
      requires Valid()
      modifies this`leased, this`running, this`alive, this`heartbeat, this`outlived
      ensures Valid() && (alive && leased ==> now < deadline)
      ensures alive && running ==> old(alive) && old(running) && now < deadline
      ensures running ==> old(running)
      ensures leased ==> old(leased)
      ensures !old(alive) || !(old(leased) && now >= deadline) ==> alive == old(alive) && leased == old(leased) && running == old(running)
      ensures old(alive) && old(leased) && now >= deadline ==>
        && (alive <==> luck.sent && luck.stopped && luck.confirmed && luck.recorded)
        && running == (old(running) && runner && !(luck.sent && luck.stopped))
      ensures heartbeat == if old(alive) && runner && (old(heartbeat).None? || now > old(heartbeat).value + 1) then Some(now) else old(heartbeat)
    {
      if alive && runner && (heartbeat.None? || now > heartbeat.value + 1) {
        heartbeat := Some(now);
      }
      if alive && leased && now >= deadline {
        var thrown := Pause(luck);
        if thrown {
          End();
        }
      }
    }

    /** One request. A request of any other generation than the current one, adoption by a
        later one aside, changes nothing. */
    method Handle(g: nat, op: Operation, now: nat, luck: Luck) returns (r: Reply)
      requires Valid() && alive
      modifies this, writer
      ensures Valid() && heartbeat == old(heartbeat)
      ensures r == StaleController <==> if op == Adopt then g <= old(generation) else g != old(generation)
      ensures r == StaleController ==> unchanged(this) && unchanged(writer)
      ensures r != StaleController ==> generation == g && trace == old(trace) + [Command(g, op, r)]
      ensures op == Adopt && r != StaleController ==> forall t, time :: t in writer.issued ==> writer.Spent(t, time)
      ensures op == Adopt && r == Done ==> !running && !leased && adopted == g
      ensures op == Renew && r != StaleController ==> (r == LeaseExpired <==> !old(leased) || now >= old(deadline))
      ensures op != Release && op != Renew ==> deadline == old(deadline) && (leased ==> old(leased)) && (running ==> old(running))
      ensures op == Renew ==> leased == old(leased) && running == old(running)
                              && deadline == if r == Done then now + LEASE else old(deadline)
      ensures op == Release && r != StaleController ==>
        leased && deadline == now + LEASE && running == (old(running) || luck.started) && (r == Done ==> running)
      ensures op == Quiesce && r == Done ==> !running && !leased
      ensures r != StaleController ==> alive == (op != Close)
      ensures op == Close && r != StaleController ==> running == (old(running) && runner)
    {
      hide Fenced;
      if op == Adopt {
        if g <= generation {
          return StaleController;
        }
        r := Accede(g, luck);
        return;
      }
      if g != generation {
        return StaleController;
      }
      FencedMore(trace, generation, Command(g, op, Done));
      FencedMore(trace, generation, Command(g, op, Failed));
      FencedMore(trace, generation, Command(g, op, LeaseExpired));
      r := Perform(op, now, luck);
      trace := trace + [Command(g, op, r)];
    }

    /** Adoption by a later controller: the generation first, then the pause, which may fail. */
    method Accede(g: nat, luck: Luck) returns (r: Reply)
      requires Valid() && alive && g > generation
      modifies this`generation, this`trace, this`adopted, this`leased, this`running, writer
      ensures Valid() && generation == g && (r == Done || r == Failed) && trace == old(trace) + [Command(g, Adopt, r)]
      ensures forall t, time :: t in writer.issued ==> writer.Spent(t, time)
      ensures (leased ==> old(leased)) && (running ==> old(running))
      ensures r == Done ==> !running && !leased && adopted == g
      ensures r == Done <==> luck.sent && luck.stopped && luck.confirmed && luck.recorded && luck.persisted
    {
      hide Fenced;
      FencedMore(trace, generation, Command(g, Adopt, Failed));
      FencedMore(trace, generation, Command(g, Adopt, Done));
      ghost var before := trace;
      generation, trace := g, trace + [Command(g, Adopt, Failed)];
      writer.Revoke();
      var thrown := Pause(luck);
      if thrown {
        return Failed;
      }
      adopted := g;
      if !luck.persisted {
        return Failed;
      }
      trace := before + [Command(g, Adopt, Done)];
      return Done;
    }

    /** A request of the current controller. */
    method Perform(op: Operation, now: nat, luck: Luck) returns (r: Reply)
      requires Valid() && alive && op != Adopt
      modifies this`leased, this`deadline, this`running, this`released, this`alive, this`outlived, writer
      ensures Valid() && r != StaleController
      ensures op == Renew ==> (r == LeaseExpired <==> !old(leased) || now >= old(deadline))
      ensures op == Renew ==> leased == old(leased) && running == old(running)
                              && deadline == if r == Done then now + LEASE else old(deadline)
      ensures op != Release && op != Renew ==> deadline == old(deadline) && (leased ==> old(leased)) && (running ==> old(running))
      ensures op == Release ==>
        leased && deadline == now + LEASE && running == (old(running) || luck.started) && (r == Done ==> running)
      ensures op == Quiesce && r == Done ==> !running && !leased
      ensures op == RevokeWriter ==> forall t, time :: t in writer.issued ==> writer.Spent(t, time)
      ensures alive == (op != Close)
      ensures op == Close ==> running == (old(running) && runner)
      ensures op == Status ==> r == Done
    {
      match op {
        case Close =>
          End();
          r := Done;
        case Release =>
          deadline, leased := now + LEASE, true;
          released := generation;
          running := running || luck.started;
          r := if luck.started && luck.acknowledged then Done else Failed;
        case Renew =>
          if !leased || now >= deadline {
            return LeaseExpired;
          }
          deadline := now + LEASE;
          r := Done;
        case Quiesce =>
          var thrown := Pause(luck);
          r := if thrown then Failed else Done;
        case RevokeWriter =>
          writer.Revoke();
          r := Done;
        case Status => r := Done;
        case _ => r := Failed;
      }
    }

    /** Any requests, of any controllers, at any times, and an end of the worker at any time.
        Generations never fall. While the worker is there a machine that runs is leased and was
        released under the last successful adoption or later; after its end only a machine in a
        container runs on, if it ran then, and no longer than its watchdog allows. A lease that
        has expired stays so, and is not renewed, until a release. */
    method Lifetime(start: nat, steps: nat) returns (now: nat)
      requires Valid() && start >= born && (heartbeat.Some? ==> heartbeat.value <= start)
      modifies this, writer
      ensures Valid() && now >= start && generation >= old(generation) && |trace| >= |old(trace)|
      ensures alive && running ==> leased && adopted <= released <= generation
      ensures !alive && running ==> runner && outlived
      ensures steps > 0 && !alive && running ==>
        if heartbeat.Some? then now <= heartbeat.value + WATCHDOG else now <= born + STARTUP
      ensures old(!leased || start >= deadline) && NoRelease(trace[|old(trace)|..]) ==>
        (!leased || now >= deadline) && NoRenewal(trace[|old(trace)|..])
    {
      now := start;
      ghost var n := |trace|;
      assert trace[n..] == [];
      for i := 0 to steps
        invariant Valid() && now >= start && generation >= old(generation) && |trace| >= n
        invariant heartbeat.Some? ==> heartbeat.value <= now
        invariant i > 0 && !alive && running ==>
          if heartbeat.Some? then now <= heartbeat.value + WATCHDOG else now <= born + STARTUP
        invariant old(!leased || start >= deadline) && NoRelease(trace[n..]) ==>
          (!leased || now >= deadline) && NoRenewal(trace[n..])
      {
        var passed: nat :| true;
        var luck: Luck :| true;
        now := now + passed;
        Watch(now);
        Tick(now, luck);
        var dies: bool := *;
        if alive && dies {
          End();
        } else if alive {
          var g: nat :| true;
          var op: Operation :| true;
          ghost var before := trace;
          var r := Handle(g, op, now, luck);
          if r != StaleController {
            assert trace[n..] == before[n..] + [Command(g, op, r)];
            OneMore(before[n..], Command(g, op, r));
          }
        }
      }
    }
  }

  /** A machine in a container keeps running, without worker and without lease, when its worker
      is told to close while it runs. */
  method ClosedWorkerLeavesMachine(now: nat) returns (w: VmWorker)
    ensures fresh(w) && w.Valid() && w.runner && !w.alive && w.running
  {
    var luck := Luck(true, true, true, true, true, true, true);
    w := new VmWorker(1, true, now);
    var r := w.Handle(1, Release, now, luck);
    r := w.Handle(1, Close, now, luck);
  }

  /** The same when its lease expires and it cannot be paused. */
  method ExpiredLeaseLeavesMachine(now: nat) returns (w: VmWorker)
    ensures fresh(w) && w.Valid() && w.runner && !w.alive && w.running
  {
    var luck := Luck(true, true, true, true, true, true, true);
    w := new VmWorker(1, true, now);
    var r := w.Handle(1, Release, now, luck);
    w.Tick(now + LEASE, luck.(sent := false));
  }

  ghost predicate NoRelease(trace: seq<Command>) {
    forall i :: 0 <= i < |trace| ==> trace[i].operation != Release
  }

  ghost predicate NoRenewal(trace: seq<Command>) {
    forall i :: 0 <= i < |trace| ==> !(trace[i].operation == Renew && trace[i].reply == Done)
  }

  lemma OneMore(trace: seq<Command>, c: Command)
    ensures NoRelease(trace + [c]) <==> NoRelease(trace) && c.operation != Release
    ensures NoRenewal(trace + [c]) <==> NoRenewal(trace) && !(c.operation == Renew && c.reply == Done)
  {
    var more := trace + [c];
    assert forall i :: 0 <= i < |trace| ==> more[i] == trace[i];
    assert more[|trace|] == c;
  }

  // ----- the capture worker -----

  /** The capture worker has the same fence, without the machine. */
  class CaptureControl {
    var generation: nat
    var stopping: bool
    var rotations: nat
    ghost var trace: seq<Command>

    ghost predicate Valid()
      reads this
    {
      Fenced(trace, generation)
    }

    constructor (g: nat)
      ensures Valid() && generation == g && !stopping && rotations == 0 && trace == []
    {
      generation, stopping, rotations, trace := g, false, 0, [];
    }

    method Handle(g: nat, op: Operation) returns (r: Reply)
      requires Valid()
      modifies this
      ensures Valid() && generation >= old(generation)
      ensures r == StaleController <==> if op == Adopt then g <= old(generation) else g != old(generation)
      ensures r == StaleController ==> unchanged(this)
      ensures r != StaleController ==> generation == g && trace == old(trace) + [Command(g, op, r)]
      ensures stopping == (old(stopping) || (r == Done && op == Stop))
      ensures rotations == old(rotations) + (if r == Done && op == Rotate then 1 else 0)
    {
      if op == Adopt {
        if g <= generation {
          return StaleController;
        }
      } else if g != generation {
        return StaleController;
      }
      FencedMore(trace, generation, Command(g, op, Done));
      FencedMore(trace, generation, Command(g, op, Failed));
      generation := g;
      var works: bool := *;
      r := if op in {Status, Stop} || (op in {Adopt, Rotate} && works) then Done else Failed;
      if r == Done && op == Stop {
        stopping := true;
      }
      if r == Done && op == Rotate {
        rotations := rotations + 1;
      }
      trace := trace + [Command(g, op, r)];
    }
  }
}
