/** Source pause/resume commands: the controller's journal of them, its worker and its restarts. */
module SourceCommands {

  type Key = nat

  datatype Outcome = Requested | Acknowledged | Failed | TimedOut | Interrupted

  /** Where the worker thread is: at the top of its loop, watching runs without the
      mutex, holding a picked command, past its transmission, or gone. */
  datatype Worker = Top | Watching | Picked(key: Key) | Sent(key: Key) | Gone

  /** How a journal commit ends; an error may still have reached the disk. */
  datatype Commit = Committed | Refused | RefusedAfterWrite

  datatype State = State(mem: map<Key, Outcome>, disk: map<Key, Outcome>, stopping: bool, worker: Worker,
                         sent: seq<Key>, doubtful: set<Key>)

  const MAX_COMMANDS := 256
  const MAX_PENDING := 8

  const Initial := State(map[], map[], false, Gone, [], {})

  function PendingKeys(m: map<Key, Outcome>): set<Key> {
    set k | k in m && m[k] == Requested
  }

  datatype Event =
    | Admit(key: Key, acceptable: bool, commit: Commit)
    | Turn
    | Pick
    | Transmit(allowed: bool)
    | Finish(outcome: Outcome, commit: Commit)
    | Checkpoint(commit: Commit)
    | Crash
    | Restart(commit: Commit)

  function Saved(s: State, c: Commit): State {
    var t := if c == Refused then s else s.(disk := s.mem);
    if c == Committed then t else t.(stopping := true)
  }

  /** `source_dispatch` for a command: a known key changes nothing. A new command is
      put in memory and saved; `doubtful` notes those whose save failed while the
      worker was between its loop test and its pick. */
  function AdmitStep(s: State, k: Key, acceptable: bool, c: Commit): State {
    if s.stopping || s.worker.Gone? || k in s.mem || !acceptable || |PendingKeys(s.mem)| >= MAX_PENDING
       || |s.mem| >= MAX_COMMANDS then s
    else
      var t := Saved(s.(mem := s.mem[k := Requested]), c);
      if c == Refused && s.worker.Watching? then t.(doubtful := t.doubtful + {k}) else t
  }

  /** The least requested key, which is the first in the order of the journal's object. */
  function Least(ks: set<Key>): (k: Key)
    requires ks != {}
    ensures k in ks && forall o :: o in ks ==> k <= o
  {
    assert exists k :: k in ks && forall o :: o in ks ==> k <= o by {
      var x :| x in ks;
      LeastBelow(ks, x);
    }
    var k :| k in ks && forall o :: o in ks ==> k <= o;
    k
  }

  lemma {:induction false} LeastBelow(ks: set<Key>, x: Key)
    requires x in ks
    ensures exists k :: k in ks && forall o :: o in ks ==> k <= o
    decreases x
  {
    if y :| y in ks && y < x {
      LeastBelow(ks, y);
    }
  }

  function Interrupt(m: map<Key, Outcome>): map<Key, Outcome> {
    map k | k in m :: if m[k] == Requested then Interrupted else m[k]
  }

  /** One event. The worker tests `stopping` only at the top of its loop. */
  function Step(s: State, e: Event): State {
    match e
    case Admit(k, acceptable, c) => AdmitStep(s, k, acceptable, c)
    case Turn => if !s.worker.Top? then s else s.(worker := if s.stopping then Gone else Watching)
    case Pick =>
      if !s.worker.Watching? then s
      else if PendingKeys(s.mem) == {} then s.(worker := Top)
      else s.(worker := Picked(Least(PendingKeys(s.mem))))
    case Transmit(allowed) =>
      if !s.worker.Picked? then s
      else s.(worker := Sent(s.worker.key), sent := if allowed then s.sent + [s.worker.key] else s.sent)
    case Finish(o, c) =>
      if !s.worker.Sent? || o == Requested then s
      else
        var t := Saved(s.(mem := s.mem[s.worker.key := o]), c);
        t.(worker := if c == Committed then Top else Gone)
    case Checkpoint(c) => if s.worker.Gone? then s else Saved(s, c)
    case Crash => s.(worker := Gone)
    case Restart(c) =>
      if !s.worker.Gone? then s
      else
        var t := Saved(s.(mem := Interrupt(s.disk), stopping := false), c);
        t.(worker := if c == Committed then Top else Gone)
  }

  function Run(s: State, es: seq<Event>): State
    decreases |es|
  {
    if es == [] then s else Step(Run(s, es[..|es| - 1]), es[|es| - 1])
  }

  function Count(ks: seq<Key>, k: Key): nat {
    if ks == [] then 0 else Count(ks[..|ks| - 1], k) + if ks[|ks| - 1] == k then 1 else 0
  }

  predicate Alive(s: State) {
    !s.worker.Gone?
  }

  ghost predicate Bounded(s: State) {
    |s.mem| <= MAX_COMMANDS && |s.disk| <= MAX_COMMANDS && (Alive(s) ==> s.disk.Keys <= s.mem.Keys)
  }

  /** `k` is requested in memory. */
  predicate Waiting(s: State, k: Key) {
    k in s.mem && s.mem[k] == Requested
  }

  ghost predicate Inv(s: State) {
    && Bounded(s)
    && (s.worker.Picked? || s.worker.Sent? ==> Waiting(s, s.worker.key))
    // What can be picked, or has been, is on disk unless it is doubtful.
    && (Alive(s) && !s.stopping ==> forall k :: Waiting(s, k) ==> k in s.disk)
    && (s.worker.Watching? ==> forall k :: Waiting(s, k) ==> k in s.disk || k in s.doubtful)
    && (s.worker.Picked? ==> s.worker.key in s.disk || s.worker.key in s.doubtful)
    && (forall k :: k in s.sent ==> k in s.disk || k in s.doubtful)
    // What can still be picked has not been sent.
    && (Alive(s) ==> forall k :: Waiting(s, k) && s.worker != Sent(k) ==> k !in s.sent || k in s.doubtful)
    && (forall k :: k !in s.doubtful ==> Count(s.sent, k) <= 1)
  }

  lemma CountAppend(ks: seq<Key>, x: Key, k: Key)
    ensures Count(ks + [x], k) == Count(ks, k) + if x == k then 1 else 0
  {
    var n := ks + [x];
    assert n[..|n| - 1] == ks;
  }

  lemma {:induction false} CountZero(ks: seq<Key>, k: Key)
    ensures k !in ks ==> Count(ks, k) == 0
  {
    if ks != [] {
      CountZero(ks[..|ks| - 1], k);
    }
  }

  lemma AddedKey(m: map<Key, Outcome>, k: Key, o: Outcome)
    requires k !in m
    ensures m[k := o].Keys == m.Keys + {k} && |m[k := o]| == |m| + 1
  {
    assert m[k := o].Keys == m.Keys + {k};
  }

  lemma AdmitBounded(s: State, k: Key, acceptable: bool, c: Commit)
    requires Bounded(s)
    ensures Bounded(AdmitStep(s, k, acceptable, c))
  {
    hide PendingKeys;
    if k !in s.mem {
      AddedKey(s.mem, k, Requested);
    }
  }

  lemma AdmitKeeps(s: State, k: Key, acceptable: bool, c: Commit)
    requires Inv(s)
    ensures Inv(AdmitStep(s, k, acceptable, c))
  {
    AdmitBounded(s, k, acceptable, c);
    var t := AdmitStep(s, k, acceptable, c);
    assert t != s ==> t.mem == s.mem[k := Requested] && k !in s.mem && Alive(s) && !s.stopping;
    assert t != s ==> k !in s.disk;
    hide PendingKeys, Count, Bounded;
  }

  lemma TransmitKeeps(s: State, allowed: bool)
    requires Inv(s)
    ensures Inv(Step(s, Transmit(allowed)))
  {
    if s.worker.Picked? && allowed {
      var x := s.worker.key;
      CountZero(s.sent, x);
      forall k ensures Count(s.sent + [x], k) == Count(s.sent, k) + if x == k then 1 else 0 {
        CountAppend(s.sent, x, k);
      }
    }
  }

  lemma FinishKeeps(s: State, o: Outcome, c: Commit)
    requires Inv(s)
    ensures Inv(Step(s, Finish(o, c)))
  {
    if s.worker.Sent? && o != Requested {
      var m := s.mem[s.worker.key := o];
      assert m.Keys == s.mem.Keys;
      assert |m| == |m.Keys| == |s.mem.Keys| == |s.mem|;
    }
  }

  lemma RestartKeeps(s: State, c: Commit)
    requires Inv(s)
    ensures Inv(Step(s, Restart(c)))
  {
    if s.worker.Gone? {
      var m := Interrupt(s.disk);
      assert m.Keys == s.disk.Keys;
      assert |m| == |m.Keys| == |s.disk.Keys| == |s.disk|;
    }
  }

  lemma StepKeeps(s: State, e: Event)
    requires Inv(s)
    ensures Inv(Step(s, e))
  {
    match e
    case Admit(k, acceptable, c) => AdmitKeeps(s, k, acceptable, c);
    case Transmit(allowed) => TransmitKeeps(s, allowed);
    case Finish(o, c) => FinishKeeps(s, o, c);
    case Restart(c) => RestartKeeps(s, c);
    case Checkpoint(c) =>
    case Turn =>
    case Pick =>
    case Crash =>
  }

  lemma {:induction false} RunKeeps(s: State, es: seq<Event>)
    requires Inv(s)
    ensures Inv(Run(s, es))
    decreases |es|
  {
    if es != [] {
      RunKeeps(s, es[..|es| - 1]);
      StepKeeps(Run(s, es[..|es| - 1]), es[|es| - 1]);
    }
  }

  /** Over every run, with crashes and failing saves anywhere, a command goes out at
      most once, unless an admission of it failed to save while the worker was
      between its loop test and its pick. The ledger stays within its bound. */
  lemma SentAtMostOnce(es: seq<Event>, k: Key)
    ensures k !in Run(Initial, es).doubtful ==> Count(Run(Initial, es).sent, k) <= 1
    ensures |Run(Initial, es).disk| <= MAX_COMMANDS
  {
    assert Inv(Initial);
    RunKeeps(Initial, es);
  }

  // ----- exactly when a command is sent again -----

  /** The agent is gone, and of a command that went out nothing is on disk. */
  predicate Lost(s: State, k: Key) {
    s.worker.Gone? && k in s.sent && k !in s.disk
  }

  /** Only a command whose admission was refused while the worker was watching is ever lost. */
  lemma LostIsDoubtful(es: seq<Event>, k: Key)
    requires Lost(Run(Initial, es), k)
    ensures k in Run(Initial, es).doubtful
  {
    assert Inv(Initial);
    RunKeeps(Initial, es);
  }

  /** As long as `k` has not been lost, it went out at most once and what may be picked
      has not gone out. */
  ghost predicate Tracked(s: State, k: Key) {
    && Count(s.sent, k) <= 1
    && (k in s.sent ==> if Alive(s) then k in s.mem else k in s.disk)
    && (Alive(s) && Waiting(s, k) && s.worker != Sent(k) ==> k !in s.sent)
  }

  lemma TrackedStep(s: State, e: Event, k: Key)
    requires Inv(s) && Tracked(s, k) && !Lost(Step(s, e), k)
    ensures Tracked(Step(s, e), k)
  {
    match e
    case Admit(x, acceptable, c) => AdmitTracked(s, x, acceptable, c, k);
    case Transmit(allowed) => TransmitTracked(s, allowed, k);
    case Turn => hide Count, Bounded;
    case Pick => hide Count, Bounded;
    case Finish(_, _) => hide Count, Bounded;
    case Checkpoint(_) => hide Count, Bounded;
    case Crash => hide Count, Bounded;
    case Restart(_) => hide Count, Bounded;
  }

  lemma TransmitTracked(s: State, allowed: bool, k: Key)
    requires Inv(s) && Tracked(s, k)
    ensures Tracked(Step(s, Transmit(allowed)), k)
  {
    if s.worker.Picked? && allowed {
      CountAppend(s.sent, s.worker.key, k);
      CountZero(s.sent, k);
    }
  }

  lemma AdmitTracked(s: State, x: Key, acceptable: bool, c: Commit, k: Key)
    requires Tracked(s, k)
    ensures Tracked(AdmitStep(s, x, acceptable, c), k)
  {
    hide Count, PendingKeys;
  }

  /** A run in which the command is never lost sends it at most once. */
  lemma {:induction false} NeverLostSentOnce(es: seq<Event>, k: Key)
    requires forall i :: 0 <= i <= |es| ==> !Lost(Run(Initial, es[..i]), k)
    ensures Tracked(Run(Initial, es), k) && Count(Run(Initial, es).sent, k) <= 1
    decreases |es|
  {
    if es != [] {
      var n := |es| - 1;
      forall i | 0 <= i <= n ensures !Lost(Run(Initial, es[..n][..i]), k) {
        assert es[..n][..i] == es[..i];
      }
      NeverLostSentOnce(es[..n], k);
      assert Inv(Initial);
      RunKeeps(Initial, es[..n]);
      assert es[..|es|] == es;
      TrackedStep(Run(Initial, es[..n]), es[n], k);
    }
  }

  /** With the agent gone, some continuation sends the command exactly when its key is not
      on disk and there is room for it: for a command that went out, when it is lost. */
  lemma SentAgainExactly(s: State, k: Key)
    requires Inv(s) && s.worker.Gone?
    ensures (exists es :: Count(Run(s, es).sent, k) > Count(s.sent, k)) <==> k !in s.disk && |s.disk| < MAX_COMMANDS
  {
    if k !in s.disk && |s.disk| < MAX_COMMANDS {
      OnceMore(s, k);
    } else {
      forall es ensures Count(Run(s, es).sent, k) == Count(s.sent, k) {
        NeverAgain(s, es, k);
      }
    }
  }

  lemma OnceMore(s: State, k: Key)
    requires Inv(s) && s.worker.Gone? && k !in s.disk && |s.disk| < MAX_COMMANDS
    ensures exists es :: Count(Run(s, es).sent, k) > Count(s.sent, k)
  {
    var d := Step(Step(Step(s, Crash), Restart(Committed)), Turn);
    Returned(s, k);
    SecondTime(d, k);
    CountAppend(s.sent, k, k);
    hide Step, Count;
    var first, last := [Crash, Restart(Committed), Turn], [Admit(k, true, Committed), Pick, Transmit(true)];
    RunThree(s, Crash, Restart(Committed), Turn);
    RunThree(d, Admit(k, true, Committed), Pick, Transmit(true));
    RunConcat(s, first, last);
    assert Count(Run(s, first + last).sent, k) > Count(s.sent, k);
  }

  /** After a restart nothing is pending, and the journal's keys are those of the disk. */
  lemma Returned(s: State, k: Key)
    requires k !in s.disk && |s.disk| < MAX_COMMANDS
    ensures var d := Step(Step(Step(s, Crash), Restart(Committed)), Turn);
            && d.worker.Watching? && !d.stopping && d.sent == s.sent
            && k !in d.mem && PendingKeys(d.mem) == {} && |d.mem| < MAX_COMMANDS
  {
    var m := Interrupt(s.disk);
    assert m.Keys == s.disk.Keys && |m| == |m.Keys| && |s.disk| == |s.disk.Keys|;
    assert PendingKeys(m) == {};
  }

  /** `k` is settled on disk, or the journal is full without it. */
  ghost predicate Closed(s: State, k: Key) {
    if k in s.disk then Alive(s) ==> k in s.mem && s.mem[k] != Requested
    else |s.disk| >= MAX_COMMANDS
  }

  lemma ClosedNotWaiting(s: State, k: Key)
    requires Bounded(s) && Closed(s, k) && Alive(s)
    ensures !Waiting(s, k) && (k !in s.disk ==> k !in s.mem && |s.mem| >= MAX_COMMANDS)
  {
    if k !in s.disk {
      assert |s.disk| == |s.disk.Keys| && |s.mem| == |s.mem.Keys|;
      SubsetSize(s.disk.Keys, s.mem.Keys);
      if k in s.mem {
        SubsetSize(s.disk.Keys + {k}, s.mem.Keys);
      }
    }
  }

  lemma ClosedStep(s: State, e: Event, k: Key)
    requires Inv(s) && Closed(s, k)
    ensures Closed(Step(s, e), k) && Count(Step(s, e).sent, k) == Count(s.sent, k)
  {
    if Alive(s) {
      ClosedNotWaiting(s, k);
    }
    if e.Transmit? && s.worker.Picked? && e.allowed {
      CountAppend(s.sent, s.worker.key, k);
    } else {
      hide Count;
      assert Step(s, e).sent == s.sent;
      if e.Finish? && s.worker.Sent? {
        var m := s.mem[s.worker.key := e.outcome];
        assert m.Keys == s.mem.Keys && |m| == |m.Keys| && |s.mem| == |s.mem.Keys|;
      }
      if e.Restart? {
        var m := Interrupt(s.disk);
        assert m.Keys == s.disk.Keys && |m| == |m.Keys| && |s.disk| == |s.disk.Keys|;
      }
    }
  }

  lemma {:induction false} NeverAgain(s: State, es: seq<Event>, k: Key)
    requires Inv(s) && s.worker.Gone? && (k in s.disk || |s.disk| >= MAX_COMMANDS)
    ensures Closed(Run(s, es), k) && Count(Run(s, es).sent, k) == Count(s.sent, k)
    decreases |es|
  {
    hide Count, Step;
    if es != [] {
      var n := |es| - 1;
      NeverAgain(s, es[..n], k);
      RunKeeps(s, es[..n]);
      ClosedStep(Run(s, es[..n]), es[n], k);
    }
  }

  /** From a first start, for every command, a run that sends it twice: it is picked although
      its admission was refused, the agent dies, and the retry with the same identifier is new. */
  lemma RefusedWhileWatchingCanRepeat(k: Key)
    ensures var es := [Restart(Committed), Turn]
                      + ([Admit(k, true, Refused), Pick, Transmit(true)] + [Crash, Restart(Committed), Turn]
                         + [Admit(k, true, Committed), Pick, Transmit(true)]);
            Run(Initial, es).sent == [k, k]
  {
    var up := State(map[], map[], false, Watching, [], {});
    assert Interrupt(map[]) == map[];
    assert Step(Step(Initial, Restart(Committed)), Turn) == up;
    assert PendingKeys(map[]) == {};
    var rest := [Admit(k, true, Refused), Pick, Transmit(true)] + [Crash, Restart(Committed), Turn]
                + [Admit(k, true, Committed), Pick, Transmit(true)];
    assert Inv(up);
    RefusedThenRepeated(up, k);
    hide Step;
    RunAppend(Initial, [], Restart(Committed));
    RunAppend(Initial, [Restart(Committed)], Turn);
    assert [] + [Restart(Committed)] == [Restart(Committed)];
    assert [Restart(Committed)] + [Turn] == [Restart(Committed), Turn];
    RunConcat(Initial, [Restart(Committed), Turn], rest);
  }

  /** The same from every watching state in which the command comes first. */
  lemma RefusedThenRepeated(s: State, k: Key)
    requires Inv(s) && s.worker.Watching? && !s.stopping && k !in s.mem
    requires |PendingKeys(s.mem)| < MAX_PENDING && |s.mem| < MAX_COMMANDS
    requires forall o :: o in PendingKeys(s.mem) ==> k < o
    ensures var es := [Admit(k, true, Refused), Pick, Transmit(true)] + [Crash, Restart(Committed), Turn]
                      + [Admit(k, true, Committed), Pick, Transmit(true)];
            Run(s, es).sent == s.sent + [k, k]
  {
    hide Count;
    FirstTime(s, k);
    var c := Step(Step(Step(s, Admit(k, true, Refused)), Pick), Transmit(true));
    var d := Step(Step(Step(c, Crash), Restart(Committed)), Turn);
    assert k !in c.disk && |c.disk| < MAX_COMMANDS by {
      assert |s.disk| == |s.disk.Keys| && |s.mem| == |s.mem.Keys|;
      SubsetSize(s.disk.Keys, s.mem.Keys);
    }
    Returned(c, k);
    SecondTime(d, k);
    assert s.sent + [k] + [k] == s.sent + [k, k];
    hide Step;
    var first, middle, last := [Admit(k, true, Refused), Pick, Transmit(true)], [Crash, Restart(Committed), Turn],
                               [Admit(k, true, Committed), Pick, Transmit(true)];
    RunThree(s, Admit(k, true, Refused), Pick, Transmit(true));
    RunThree(c, Crash, Restart(Committed), Turn);
    RunThree(d, Admit(k, true, Committed), Pick, Transmit(true));
    RunConcat(s, first, middle);
    RunConcat(s, first + middle, last);
  }

  lemma FirstTime(s: State, k: Key)
    requires s.worker.Watching? && !s.stopping && k !in s.mem
    requires |PendingKeys(s.mem)| < MAX_PENDING && |s.mem| < MAX_COMMANDS
    requires forall o :: o in PendingKeys(s.mem) ==> k < o
    ensures var c := Step(Step(Step(s, Admit(k, true, Refused)), Pick), Transmit(true));
            c.sent == s.sent + [k] && c.disk == s.disk
  {
    var m := s.mem[k := Requested];
    assert Step(s, Admit(k, true, Refused)) == s.(mem := m, stopping := true, doubtful := s.doubtful + {k});
    assert PendingKeys(m) == PendingKeys(s.mem) + {k};
    hide PendingKeys;
    assert Least(PendingKeys(m)) == k;
  }

  lemma SecondTime(d: State, k: Key)
    requires d.worker.Watching? && !d.stopping && k !in d.mem && PendingKeys(d.mem) == {} && |d.mem| < MAX_COMMANDS
    ensures Step(Step(Step(d, Admit(k, true, Committed)), Pick), Transmit(true)).sent == d.sent + [k]
  {
    var e := Step(d, Admit(k, true, Committed));
    assert PendingKeys(e.mem) == {k} by {
      assert forall o :: o in d.mem ==> d.mem[o] != Requested by {
        forall o | o in d.mem ensures d.mem[o] != Requested {
          assert o !in PendingKeys(d.mem);
        }
      }
    }
  }

  lemma SubsetSize(a: set<Key>, b: set<Key>)
    requires a <= b
    ensures |a| <= |b|
  {
    assert b == a + (b - a);
  }

  lemma RunAppend(s: State, es: seq<Event>, e: Event)
    ensures Run(s, es + [e]) == Step(Run(s, es), e)
  {
    var n := es + [e];
    assert n[..|n| - 1] == es;
  }

  lemma RunThree(s: State, a: Event, b: Event, c: Event)
    ensures Run(s, [a, b, c]) == Step(Step(Step(s, a), b), c)
  {
    hide Step;
    RunAppend(s, [], a);
    RunAppend(s, [a], b);
    RunAppend(s, [a, b], c);
    assert [] + [a] == [a] && [a] + [b] == [a, b] && [a, b] + [c] == [a, b, c];
  }

  lemma {:induction false} RunConcat(s: State, es: seq<Event>, fs: seq<Event>)
    ensures Run(s, es + fs) == Run(Run(s, es), fs)
    decreases |fs|
  {
    hide Step;
    if fs == [] {
      assert es + fs == es;
    } else {
      var n, g := |fs| - 1, fs[..|fs| - 1];
      RunConcat(s, es, g);
      RunAppend(s, es + g, fs[n]);
      assert es + fs == (es + g) + [fs[n]];
    }
  }
}
