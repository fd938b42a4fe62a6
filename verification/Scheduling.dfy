/** Kahn's algorithm with a lexically ordered ready set, over named steps. */
module Scheduling {
  import opened Ordering

  datatype Step = Step(operation: string, dependsOn: set<string>)

  type Graph = map<string, Step>

  datatype Outcome = Ordered(order: seq<string>) | MissingDependency | DependencyCycle

  // ----- what an order must satisfy -----

  ghost predicate Closed(steps: Graph) {
    forall k, d :: k in steps && d in steps[k].dependsOn ==> d in steps
  }

  function Placed(order: seq<string>): set<string> {
    set k | k in order
  }

  ghost predicate Distinct(order: seq<string>) {
    forall i, j :: 0 <= i < j < |order| ==> order[i] != order[j]
  }

  /** All dependencies come earlier. */
  ghost predicate Topological(steps: Graph, order: seq<string>) {
    && Distinct(order)
    && (forall i :: 0 <= i < |order| ==> order[i] in steps && steps[order[i]].dependsOn <= Placed(order[..i]))
  }

  /** Every step is listed, once, after its dependencies. */
  ghost predicate Complete(steps: Graph, order: seq<string>) {
    Topological(steps, order) && Placed(order) == steps.Keys
  }

  predicate Ready(steps: Graph, placed: set<string>, k: string) {
    k in steps && k !in placed && steps[k].dependsOn <= placed
  }

  /** `k` is the lexically least of the ready steps. */
  ghost predicate LeastReady(steps: Graph, placed: set<string>, k: string) {
    Ready(steps, placed, k) && forall j :: Ready(steps, placed, j) && j != k ==> Less(k, j)
  }

  /** Each position holds the lexically least step that is ready there. */
  ghost predicate Greedy(steps: Graph, order: seq<string>) {
    forall i :: 0 <= i < |order| ==> LeastReady(steps, Placed(order[..i]), order[i])
  }

  lemma {:induction false} GreedyIsTopological(steps: Graph, order: seq<string>)
    requires Greedy(steps, order)
    ensures Topological(steps, order)
  {
    forall i, j | 0 <= i < j < |order| ensures order[i] != order[j] {
      assert order[i] in order[..j];
      assert LeastReady(steps, Placed(order[..j]), order[j]);
    }
    forall i | 0 <= i < |order| ensures order[i] in steps && steps[order[i]].dependsOn <= Placed(order[..i]) {
      assert LeastReady(steps, Placed(order[..i]), order[i]);
    }
  }

  /** There is only one greedy order of a given length. */
  lemma {:induction false} GreedyUnique(steps: Graph, a: seq<string>, b: seq<string>)
    requires Greedy(steps, a) && Greedy(steps, b) && |a| == |b|
    ensures a == b
    decreases |a|
  {
    if a != [] {
      var n := |a| - 1;
      GreedyPrefix(steps, a, n);
      GreedyPrefix(steps, b, n);
      GreedyUnique(steps, a[..n], b[..n]);
      var x, y := a[n], b[n];
      assert LeastReady(steps, Placed(a[..n]), x) && LeastReady(steps, Placed(b[..n]), y);
      if x != y {
        LessTransitive(x, y, x);
        LessIrreflexive(x);
      }
      assert a == a[..n] + [x] && b == b[..n] + [y];
    }
  }

  lemma GreedyPrefix(steps: Graph, a: seq<string>, n: nat)
    requires Greedy(steps, a) && n <= |a|
    ensures Greedy(steps, a[..n])
  {
    forall i | 0 <= i < n ensures LeastReady(steps, Placed(a[..n][..i]), a[..n][i]) {
      assert a[..n][..i] == a[..i];
    }
  }

  /** If an order exists, a step is ready wherever some are still missing. */
  lemma NeverStuck(steps: Graph, order: seq<string>, placed: set<string>) returns (k: string)
    requires Complete(steps, order) && placed < steps.Keys
    ensures Ready(steps, placed, k)
  {
    var i := 0;
    assert exists j :: 0 <= j < |order| && order[j] !in placed by {
      var x :| x in steps.Keys && x !in placed;
      assert x in Placed(order);
    }
    while order[i] in placed
      invariant 0 <= i < |order| && Placed(order[..i]) <= placed
      invariant exists j :: i <= j < |order| && order[j] !in placed
      decreases |order| - i
    {
      assert order[..i + 1] == order[..i] + [order[i]];
      i := i + 1;
    }
    k := order[i];
  }

  // ----- the algorithm -----

  /** `deps` without the placed ones. */
  function Waiting(steps: Graph, placed: set<string>, k: string): set<string>
    requires k in steps
  {
    steps[k].dependsOn - placed
  }

  ghost predicate Counts(steps: Graph, remaining: map<string, nat>, placed: set<string>) {
    remaining.Keys == steps.Keys && forall k :: k in steps ==> remaining[k] == |Waiting(steps, placed, k)|
  }

  /** The dependents of a step among `keys`, each listed once. */
  ghost predicate Lists(steps: Graph, keys: set<string>, d: string, l: seq<string>)
    requires keys <= steps.Keys
  {
    Distinct(l) && forall k :: k in l <==> k in keys && d in steps[k].dependsOn
  }

  function Find(dependents: map<string, seq<string>>, d: string): seq<string> {
    if d in dependents then dependents[d] else []
  }

  ghost predicate Indexes(steps: Graph, keys: set<string>, dependents: map<string, seq<string>>)
    requires keys <= steps.Keys
  {
    forall d :: Lists(steps, keys, d, Find(dependents, d))
  }

  /** Lists `key` under each of its dependencies. */
  method Register(steps: Graph, ghost keys: set<string>, key: string, dependents: map<string, seq<string>>)
    returns (known: bool, r: map<string, seq<string>>)
    requires keys <= steps.Keys && key in steps && key !in keys && Indexes(steps, keys, dependents)
    ensures known <==> steps[key].dependsOn <= steps.Keys
    ensures known ==> Indexes(steps, keys + {key}, r)
  {
    r := dependents;
    var rest := steps[key].dependsOn;
    while rest != {}
      invariant rest <= steps[key].dependsOn && steps[key].dependsOn - rest <= steps.Keys
      invariant forall d :: d in steps[key].dependsOn - rest ==> Lists(steps, keys + {key}, d, Find(r, d))
      invariant forall d :: d !in steps[key].dependsOn - rest ==> Find(r, d) == Find(dependents, d)
      decreases rest
    {
      var name :| name in rest;
      if name !in steps {
        return false, r;
      }
      assert Lists(steps, keys, name, Find(r, name));
      r := r[name := Find(r, name) + [key]];
      rest := rest - {name};
    }
    known := true;
    forall d ensures Lists(steps, keys + {key}, d, Find(r, d)) {
      assert Lists(steps, keys, d, Find(dependents, d));
    }
  }

  function ReadySet(steps: Graph, placed: set<string>): set<string> {
    set k | k in steps && Ready(steps, placed, k)
  }

  ghost predicate Started(steps: Graph, done: set<string>, remaining: map<string, nat>, ready: set<string>)
    requires done <= steps.Keys
  {
    && remaining.Keys == done && ready <= done
    && (forall k :: k in done ==> remaining[k] == |steps[k].dependsOn| && steps[k].dependsOn <= steps.Keys
                                  && (k in ready <==> steps[k].dependsOn == {}))
  }

  /** Counts dependencies and finds the steps without any. */
  method Prepare(steps: Graph)
    returns (known: bool, remaining: map<string, nat>, dependents: map<string, seq<string>>, ready: set<string>)
    ensures known <==> Closed(steps)
    ensures known ==> Counts(steps, remaining, {}) && Indexes(steps, steps.Keys, dependents)
    ensures known ==> ready == ReadySet(steps, {})
  {
    hide Indexes, Started, Closed, Counts;
    remaining, dependents, ready := map[], map[], {};
    var rest := steps.Keys;
    ghost var done: set<string> := {};
    NothingIndexed(steps);
    while rest != {}
      invariant rest <= steps.Keys && done == steps.Keys - rest
      invariant Started(steps, done, remaining, ready) && Indexes(steps, done, dependents)
      decreases rest
    {
      var key :| key in rest;
      StartedStep(steps, done, remaining, ready, key);
      remaining := remaining[key := |steps[key].dependsOn|];
      if remaining[key] == 0 {
        ready := ready + {key};
      }
      known, dependents := Register(steps, done, key, dependents);
      if !known {
        return;
      }
      rest, done := rest - {key}, done + {key};
    }
    known := true;
    assert done == steps.Keys;
    AllStarted(steps, remaining, ready);
  }

  lemma StartedStep(steps: Graph, done: set<string>, remaining: map<string, nat>, ready: set<string>, key: string)
    requires done <= steps.Keys && key in steps && key !in done && Started(steps, done, remaining, ready)
    ensures
      var deps := steps[key].dependsOn;
      if deps <= steps.Keys then
        Started(steps, done + {key}, remaining[key := |deps|], if |deps| == 0 then ready + {key} else ready)
      else !Closed(steps)
  {
    var deps := steps[key].dependsOn;
    assert |deps| == 0 <==> deps == {};
    if !(deps <= steps.Keys) {
      var d :| d in deps && d !in steps;
    }
  }

  lemma AllStarted(steps: Graph, remaining: map<string, nat>, ready: set<string>)
    requires Started(steps, steps.Keys, remaining, ready)
    ensures Closed(steps) && Counts(steps, remaining, {}) && ready == ReadySet(steps, {})
  {
    assert Closed(steps);
    hide Closed;
    forall k | k in steps
      ensures Waiting(steps, {}, k) == steps[k].dependsOn
      ensures Ready(steps, {}, k) <==> k in ready
    {
    }
    hide Started, Waiting, Ready;
  }

  lemma NothingIndexed(steps: Graph)
    ensures Indexes(steps, {}, map[]) && Started(steps, {}, map[], {})
  {
  }

  /** One step's count and readiness, given which steps it knows to be placed. */
  ghost predicate Fits(steps: Graph, view: set<string>, k: string, count: nat, ready: bool)
    requires k in steps
  {
    count == |Waiting(steps, view, k)| && (ready <==> Ready(steps, view, k))
  }

  /** Counts and ready set while only the dependents in `done` know that `key` is placed. */
  ghost predicate Partly(steps: Graph, placed: set<string>, key: string, done: set<string>,
                         counts: map<string, nat>, ready: set<string>)
  {
    && counts.Keys == steps.Keys && ready <= steps.Keys && key !in ready
    && (forall k :: k in steps && k != key ==>
          Fits(steps, if k in done then placed + {key} else placed, k, counts[k], k in ready))
    && (key in steps ==> counts[key] == |Waiting(steps, placed, key)|)
  }

  /** Whatever is placed has its dependencies placed. */
  ghost predicate Settled(steps: Graph, placed: set<string>) {
    forall k :: k in placed && k in steps ==> steps[k].dependsOn <= placed
  }

  lemma GreedyIsSettled(steps: Graph, order: seq<string>)
    requires Greedy(steps, order)
    ensures Settled(steps, Placed(order))
  {
    forall k | k in Placed(order) && k in steps ensures steps[k].dependsOn <= Placed(order) {
      var i :| 0 <= i < |order| && order[i] == k;
      assert LeastReady(steps, Placed(order[..i]), k);
    }
  }

  lemma PartlyStep(steps: Graph, placed: set<string>, key: string, done: set<string>,
                   counts: map<string, nat>, ready: set<string>, k: string)
    requires Ready(steps, placed, key) && Partly(steps, placed, key, done, counts, ready)
    requires k in steps && key in steps[k].dependsOn && k !in done && Settled(steps, placed)
    ensures counts[k] > 0
    ensures Partly(steps, placed, key, done + {k}, counts[k := counts[k] - 1],
                   if counts[k] == 1 then ready + {k} else ready)
  {
    assert k != key && k !in placed;
    assert Fits(steps, placed, k, counts[k], k in ready);
    FitsNext(steps, placed, key, k, counts[k], k in ready);
    hide Fits, Ready, Waiting;
  }

  lemma FitsNext(steps: Graph, placed: set<string>, key: string, k: string, count: nat, ready: bool)
    requires k in steps && k != key && k !in placed && key !in placed && key in steps[k].dependsOn
    requires Fits(steps, placed, k, count, ready)
    ensures count > 0 && !ready && Fits(steps, placed + {key}, k, count - 1, count == 1)
  {
    var before, after := Waiting(steps, placed, k), Waiting(steps, placed + {key}, k);
    assert after == before - {key} && key in before;
    assert |after| == 0 <==> after == {};
    assert steps[k].dependsOn <= placed + {key} <==> after == {};
  }

  lemma PartlyDone(steps: Graph, placed: set<string>, key: string, done: set<string>,
                   counts: map<string, nat>, ready: set<string>)
    requires Ready(steps, placed, key) && Partly(steps, placed, key, done, counts, ready)
    requires forall k :: k in done <==> k in steps && key in steps[k].dependsOn
    ensures Counts(steps, counts, placed + {key}) && ready == ReadySet(steps, placed + {key})
  {
    forall k | k in steps && k != key
      ensures Fits(steps, placed + {key}, k, counts[k], k in ready)
    {
      if k !in done {
        assert Fits(steps, placed, k, counts[k], k in ready);
        assert Waiting(steps, placed + {key}, k) == Waiting(steps, placed, k);
      }
    }
    assert Waiting(steps, placed + {key}, key) == Waiting(steps, placed, key);
  }

  /** Takes the placed step off its dependents' counts; those that reach zero become ready. */
  method Release(steps: Graph, ghost placed: set<string>, key: string, l: seq<string>,
                 remaining: map<string, nat>, ready: set<string>)
    returns (counts: map<string, nat>, more: set<string>)
    requires Ready(steps, placed, key) && Settled(steps, placed) && Lists(steps, steps.Keys, key, l)
    requires Counts(steps, remaining, placed) && ready == ReadySet(steps, placed) - {key}
    ensures Counts(steps, counts, placed + {key})
    ensures more == ReadySet(steps, placed + {key})
  {
    hide Partly;
    counts, more := remaining, ready;
    ghost var done: set<string> := {};
    assert Partly(steps, placed, key, done, counts, more) by {
      PartlyStart(steps, placed, key, counts, more);
    }
    for i := 0 to |l|
      invariant done == Placed(l[..i]) && counts.Keys == steps.Keys
      invariant Partly(steps, placed, key, done, counts, more)
    {
      var dependent := l[i];
      assert dependent in l && dependent !in l[..i];
      PartlyStep(steps, placed, key, done, counts, more, dependent);
      counts := counts[dependent := counts[dependent] - 1];
      if counts[dependent] == 0 {
        more := more + {dependent};
      }
      assert l[..i + 1] == l[..i] + [dependent];
      done := done + {dependent};
    }
    assert l[..|l|] == l;
    PartlyDone(steps, placed, key, done, counts, more);
  }

  lemma PartlyStart(steps: Graph, placed: set<string>, key: string, counts: map<string, nat>, ready: set<string>)
    requires Counts(steps, counts, placed) && ready == ReadySet(steps, placed) - {key}
    ensures Partly(steps, placed, key, {}, counts, ready)
  {
    forall k | k in steps && k != key ensures Fits(steps, placed, k, counts[k], k in ready) {
    }
  }

  /** Orders the steps. The order found is the greedy one; a dependency is reported missing
      exactly when there is one, and a cycle exactly when no order exists. */
  method Kahn(steps: Graph) returns (r: Outcome)
    ensures r.MissingDependency? <==> !Closed(steps)
    ensures r.Ordered? ==> Greedy(steps, r.order) && Complete(steps, r.order)
    ensures r.DependencyCycle? ==> Closed(steps) && !exists order :: Complete(steps, order)
  {
    hide Less, Indexes, Complete, Counts, Lists;
    var known, remaining, dependents, ready := Prepare(steps);
    if !known {
      return MissingDependency;
    }
    var ordered: seq<string> := [];
    assert Placed(ordered) == {};
    while ready != {}
      invariant ready == ReadySet(steps, Placed(ordered))
      invariant Counts(steps, remaining, Placed(ordered)) && Indexes(steps, steps.Keys, dependents)
      invariant Greedy(steps, ordered) && Placed(ordered) <= steps.Keys
      decreases steps.Keys - Placed(ordered)
    {
      ghost var placed := Placed(ordered);
      var key := Least(ready);
      IndexedList(steps, dependents, key);
      GreedyIsSettled(steps, ordered);
      remaining, ready := Release(steps, placed, key, Find(dependents, key), remaining, ready - {key});
      GreedyMore(steps, ordered, key);
      ordered := ordered + [key];
    }
    assert forall k :: Ready(steps, Placed(ordered), k) ==> k in ready;
    Finished(steps, ordered);
    CountPlaced(steps, ordered);
    if |ordered| != |steps| {
      return DependencyCycle;
    }
    r := Ordered(ordered);
  }

  lemma IndexedList(steps: Graph, dependents: map<string, seq<string>>, d: string)
    requires Indexes(steps, steps.Keys, dependents)
    ensures Lists(steps, steps.Keys, d, Find(dependents, d))
  {
  }

  lemma GreedyMore(steps: Graph, ordered: seq<string>, key: string)
    requires Greedy(steps, ordered) && LeastReady(steps, Placed(ordered), key)
    ensures Greedy(steps, ordered + [key]) && Placed(ordered + [key]) == Placed(ordered) + {key}
  {
    hide LeastReady;
    var more := ordered + [key];
    forall i | 0 <= i < |more| ensures LeastReady(steps, Placed(more[..i]), more[i]) {
      if i < |ordered| {
        assert more[..i] == ordered[..i];
      } else {
        assert more[..i] == ordered;
      }
    }
  }

  lemma Finished(steps: Graph, ordered: seq<string>)
    requires Greedy(steps, ordered) && Placed(ordered) <= steps.Keys
    requires forall k :: k in steps ==> !Ready(steps, Placed(ordered), k)
    ensures Placed(ordered) == steps.Keys ==> Complete(steps, ordered)
    ensures Placed(ordered) != steps.Keys ==> !exists order :: Complete(steps, order)
  {
    GreedyIsTopological(steps, ordered);
    if Placed(ordered) != steps.Keys {
      forall order | Complete(steps, order) ensures false {
        var k := NeverStuck(steps, order, Placed(ordered));
      }
    }
  }

  lemma CountPlaced(steps: Graph, ordered: seq<string>)
    requires Greedy(steps, ordered) && Placed(ordered) <= steps.Keys
    ensures |ordered| == |steps| <==> Placed(ordered) == steps.Keys
  {
    GreedyIsTopological(steps, ordered);
    DistinctCount(ordered);
    assert |steps| == |steps.Keys|;
    if Placed(ordered) < steps.Keys {
      SmallerSet(Placed(ordered), steps.Keys);
    }
  }

  lemma {:induction false} DistinctCount(s: seq<string>)
    requires Distinct(s)
    ensures |Placed(s)| == |s|
  {
    if s != [] {
      var n := |s| - 1;
      DistinctCount(s[..n]);
      assert s == s[..n] + [s[n]];
      assert s[n] !in s[..n];
      assert Placed(s) == Placed(s[..n]) + {s[n]};
    }
  }

  lemma SmallerSet(a: set<string>, b: set<string>)
    requires a < b
    ensures |a| < |b|
  {
    var x :| x in b && x !in a;
    assert |b| == |a| + |b - a|;
    assert x in b - a;
  }

  // ----- graphs with phases -----

  /** Dependencies lie in earlier phases. */
  ghost predicate Phased(steps: Graph, phase: string -> nat) {
    forall k, d :: k in steps && d in steps[k].dependsOn ==> phase(d) < phase(k)
  }

  /** Steps in phases can always be ordered. */
  lemma PhasedHasOrder(steps: Graph, phase: string -> nat)
    requires Closed(steps) && Phased(steps, phase)
    ensures exists order :: Complete(steps, order)
  {
    hide Complete;
    var order: seq<string> := [];
    while Placed(order) != steps.Keys
      invariant Topological(steps, order) && Placed(order) <= steps.Keys
      decreases steps.Keys - Placed(order)
    {
      var missing := steps.Keys - Placed(order);
      assert missing != {} by {
        assert steps.Keys <= Placed(order) ==> Placed(order) == steps.Keys;
        var x :| x in steps.Keys && x !in Placed(order);
        assert x in missing;
      }
      var k := Earliest(steps, phase, missing);
      assert steps.Keys - missing == Placed(order);
      TopologicalMore(steps, order, k);
      order := order + [k];
    }
    assert Complete(steps, order) by { Whole(steps, order); }
  }

  lemma Whole(steps: Graph, order: seq<string>)
    requires Topological(steps, order) && Placed(order) == steps.Keys
    ensures Complete(steps, order)
  {
  }

  lemma TopologicalMore(steps: Graph, order: seq<string>, k: string)
    requires Topological(steps, order) && Ready(steps, Placed(order), k)
    ensures Topological(steps, order + [k]) && Placed(order + [k]) == Placed(order) + {k}
  {
    var more := order + [k];
    forall i | 0 <= i < |more| ensures more[i] in steps && steps[more[i]].dependsOn <= Placed(more[..i]) {
      if i < |order| {
        assert more[..i] == order[..i];
      } else {
        assert more[..i] == order;
      }
    }
  }

  /** A step of the earliest phase among the missing ones is ready. */
  lemma Earliest(steps: Graph, phase: string -> nat, missing: set<string>) returns (k: string)
    requires Closed(steps) && Phased(steps, phase) && missing <= steps.Keys && missing != {}
    ensures Ready(steps, steps.Keys - missing, k)
  {
    k :| k in missing;
    while exists d :: d in missing && phase(d) < phase(k)
      invariant k in missing
      decreases phase(k)
    {
      var d :| d in missing && phase(d) < phase(k);
      k := d;
    }
  }
}
