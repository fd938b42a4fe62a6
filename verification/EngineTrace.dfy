/** The effects the engine issues, in order, and the rules every such trace obeys. */
module EngineTrace {
  import opened EngineState

  /** One backend call with its outcome, the start of a job, or a restart of the agent. */
  datatype Effect =
    | Restarted
    | JobStarted(job: JobId)
    | PrepareCall(run: RunId, key: ResourceKey)
    | RemoveCall(run: RunId, key: ResourceKey, ok: bool)
    | ArmCall(run: RunId, epoch: nat, ok: bool)
    | StatusCall(run: RunId, ok: bool)
    | StopCall(run: RunId, ok: bool)
    | ReleaseCall(run: RunId, epoch: nat, captured: bool)
    | RenewCall(run: RunId, captured: bool)
    | QuiesceCall(run: RunId)
    | FaultCall(run: RunId, fault: FaultId, apply: bool)
    | OtherCall

  /** What the captures of a run are known to be: not running, armed, or armed and since seen healthy. */
  datatype Guard = Unarmed | ArmedAt(epoch: nat) | HealthyAt(epoch: nat)

  function After(g: Guard, e: Effect, r: RunId): Guard {
    match e
    case Restarted => Unarmed
    case ArmCall(q, epoch, ok) => if q != r then g else if ok then ArmedAt(epoch) else Unarmed
    case StopCall(q, _) => if q == r then Unarmed else g
    case StatusCall(q, ok) =>
      if q != r then g else if !ok || g.Unarmed? then Unarmed else HealthyAt(g.epoch)
    case _ => g
  }

  function GuardOf(t: seq<Effect>, r: RunId): Guard {
    if t == [] then Unarmed else After(GuardOf(t[..|t| - 1], r), t[|t| - 1], r)
  }

  /** Whether effect `e` may follow trace `t`. */
  ghost predicate Permitted(t: seq<Effect>, e: Effect) {
    match e
    case ReleaseCall(r, epoch, captured) => captured ==> GuardOf(t, r) == HealthyAt(epoch)
    case RenewCall(r, captured) =>
      captured ==> GuardOf(t, r).HealthyAt? && |t| > 0 && t[|t| - 1] == StatusCall(r, true)
    case JobStarted(x) => JobStarted(x) !in t
    case _ => true
  }

  ghost predicate SafeTrace(t: seq<Effect>) {
    t == [] || (SafeTrace(t[..|t| - 1]) && Permitted(t[..|t| - 1], t[|t| - 1]))
  }

  lemma TraceStep(t: seq<Effect>, e: Effect)
    requires SafeTrace(t) && Permitted(t, e)
    ensures SafeTrace(t + [e])
    ensures forall r :: GuardOf(t + [e], r) == After(GuardOf(t, r), e, r)
  {
    var n := t + [e];
    assert n[..|n| - 1] == t && n[|n| - 1] == e;
  }

  lemma {:induction false} SafeAt(t: seq<Effect>, i: nat)
    requires SafeTrace(t) && i < |t|
    ensures Permitted(t[..i], t[i])
  {
    if i < |t| - 1 {
      SafeAt(t[..|t| - 1], i);
      assert t[..|t| - 1][..i] == t[..i];
    }
  }

  /** Effects after which a run's captures are no longer known to be running as armed. */
  predicate Disarms(e: Effect, r: RunId) {
    || e.Restarted?
    || (e.ArmCall? && e.run == r)
    || (e.StopCall? && e.run == r)
    || (e.StatusCall? && e.run == r && !e.ok)
  }

  lemma {:induction false} GuardMeans(t: seq<Effect>, r: RunId) returns (arm: nat, check: nat)
    requires !GuardOf(t, r).Unarmed?
    ensures arm < |t| && t[arm] == ArmCall(r, GuardOf(t, r).epoch, true)
    ensures forall m :: arm < m < |t| ==> !Disarms(t[m], r)
    ensures GuardOf(t, r).HealthyAt? ==> arm < check < |t| && t[check] == StatusCall(r, true)
  {
    arm, check := 0, 0;
    if t != [] {
      var e, n := t[|t| - 1], |t| - 1;
      if e.ArmCall? && e.run == r {
        arm := n;
      } else {
        arm, check := GuardMeans(t[..n], r);
        if e.StatusCall? && e.run == r {
          check := n;
        }
      }
    }
  }

  /** Capture first: every release of a captured run comes after an arm of the same
      epoch and a later successful status, both successful, with nothing in between
      that could have stopped or invalidated those captures. */
  lemma ReleaseIsCaptured(t: seq<Effect>, i: nat) returns (arm: nat, check: nat)
    requires SafeTrace(t) && i < |t| && t[i].ReleaseCall? && t[i].captured
    ensures arm < check < i
    ensures t[arm] == ArmCall(t[i].run, t[i].epoch, true) && t[check] == StatusCall(t[i].run, true)
    ensures forall m :: arm < m < i ==> !Disarms(t[m], t[i].run)
  {
    SafeAt(t, i);
    arm, check := GuardMeans(t[..i], t[i].run);
  }

  /** Every renewal comes directly after its own successful status, under a live arm. */
  lemma RenewIsChecked(t: seq<Effect>, i: nat) returns (arm: nat)
    requires SafeTrace(t) && i < |t| && t[i].RenewCall? && t[i].captured
    ensures i > 0 && t[i - 1] == StatusCall(t[i].run, true)
    ensures arm < i && t[arm].ArmCall? && t[arm].run == t[i].run && t[arm].ok
    ensures forall m :: arm < m < i ==> !Disarms(t[m], t[i].run)
  {
    SafeAt(t, i);
    var check;
    arm, check := GuardMeans(t[..i], t[i].run);
    assert t[..i][i - 1] == t[i - 1];
  }

  /** After a failed health check of a captured run, neither release nor renew is
      issued until its captures have been armed again. */
  lemma NoTrafficAfterFailure(t: seq<Effect>, failed: nat, i: nat) returns (arm: nat)
    requires SafeTrace(t) && failed < i < |t|
    requires t[failed].StatusCall? && !t[failed].ok
    requires (t[i].ReleaseCall? || t[i].RenewCall?) && t[i].run == t[failed].run && t[i].captured
    ensures failed < arm < i && t[arm].ArmCall? && t[arm].run == t[i].run && t[arm].ok
  {
    assert Disarms(t[failed], t[i].run);
    if t[i].ReleaseCall? {
      var check;
      arm, check := ReleaseIsCaptured(t, i);
    } else {
      arm := RenewIsChecked(t, i);
    }
  }

  /** No job is ever started twice, whatever crashes and restarts lie between. */
  lemma JobsStartOnce(t: seq<Effect>, i: nat, k: nat)
    requires SafeTrace(t) && i < k < |t| && t[i].JobStarted? && t[k].JobStarted?
    ensures t[i].job != t[k].job
  {
    SafeAt(t, k);
    assert t[..k][i] == t[i];
  }
}
