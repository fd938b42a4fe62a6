/** The dry-run planner: the order of the steps of a validated topology, and the order
    in which its resources are torn down. */
module Planner {
  import opened Options
  import opened Ordering
  import opened Topology
  import opened Scheduling
  import opened PlanSteps
  import opened Canonicalisation
  import Validation
  import AddressPlan
  import LoopPolicy

  // ----- the steps of a validated topology can be ordered -----

  /** Edges join declared nodes and attachments name declared networks. */
  ghost predicate WellFormed(t: Document) {
    && (forall e :: e in t.edges ==> NodeOf(e.first) in t.nodes && NodeOf(e.second) in t.nodes)
    && (forall a :: a in AttachmentsOf(t) ==> a.network in t.networks)
    && Unique(t.edges, EdgeKey)
  }

  lemma AcceptedIsWellFormed(t: Document)
    requires Accepted(t)
    ensures WellFormed(t)
  {
    hide Endpoint, NodeOf, AddressPlan.Usable, AddressPlan.Apart, LoopPolicy.LoopsProtected, NodesOk, FlowsOk, NetworksOk;
    forall e | e in t.edges ensures NodeOf(e.first) in t.nodes && NodeOf(e.second) in t.nodes {
      Validation.EndpointNode(t.nodes, e.first);
      Validation.EndpointNode(t.nodes, e.second);
    }
  }

  function Phase(k: Key): nat {
    match k
    case Preflight => 0
    case Network(_) => 1
    case NodeStep(_) => 2
    case EdgeStep(_) => 3
    case PolicyStep => 4
    case Guest(_) => 5
    case Capture(_) => 5
    case CaptureBarrier => 6
    case EnableData => 7
    case Converge => 8
    case ReleaseStep(_) => 9
    case Health(_) => 10
    case ReadyStep => 11
  }

  /** Which steps a topology has, kind by kind. */
  ghost predicate Belongs(t: Document, k: Key) {
    match k
    case Network(id) => id in t.networks
    case NodeStep(id) => id in t.nodes
    case EdgeStep(id) => exists e :: e in t.edges && e.id == id
    case Guest(id) => id in t.nodes && t.nodes[id].kind.Qemu?
    case Capture(id) => exists e :: e in t.edges && e.id == id
    case ReleaseStep(id) => id in t.nodes && !t.nodes[id].kind.Switch?
    case Health(id) => id in t.nodes && !t.nodes[id].kind.Switch?
    case _ => true
  }

  lemma KeyBelongs(t: Document, k: Key)
    ensures k in Keys(t) <==> Belongs(t, k)
  {
    if k.EdgeStep? && Belongs(t, k) {
      var e :| e in t.edges && e.id == k.id;
      assert EdgeStep(e.id) in EdgeSteps(t);
    }
    if k.Capture? && Belongs(t, k) {
      var e :| e in t.edges && e.id == k.id;
      assert Capture(e.id) in Captures(t);
    }
  }

  /** Every dependency is a step of an earlier phase. */
  lemma DependenciesEarlier(t: Document, k: Key, d: Key)
    requires WellFormed(t) && k in Keys(t) && d in Dependencies(t, k)
    ensures d in Keys(t) && Phase(d) < Phase(k)
  {
    hide NodeOf, Keys;
    KeyBelongs(t, k);
    KeyBelongs(t, d);
  }

  /** Every step but the last is waited for. */
  lemma HasDependent(t: Document, k: Key) returns (j: Key)
    requires WellFormed(t) && k in Keys(t) && k != ReadyStep
    ensures j in Keys(t) && k in Dependencies(t, j)
  {
    hide NodeOf, Keys;
    KeyBelongs(t, k);
    match k {
      case Preflight => j := AfterPreflight(t);
      case Network(_) => j := PolicyStep;
      case NodeStep(_) => j := PolicyStep;
      case EdgeStep(_) => j := PolicyStep;
      case PolicyStep => j := AfterPolicy(t);
      case Guest(_) => j := CaptureBarrier;
      case Capture(_) => j := CaptureBarrier;
      case CaptureBarrier => j := EnableData;
      case EnableData => j := Converge;
      case Converge => j := AfterConverge(t);
      case ReleaseStep(id) => j := Health(id);
      case Health(_) => j := ReadyStep;
    }
    KeyBelongs(t, j);
  }

  lemma AfterPreflight(t: Document) returns (j: Key)
    requires WellFormed(t)
    ensures Belongs(t, j) && Preflight in Dependencies(t, j)
  {
    if NetworkSteps(t) != {} {
      j :| j in NetworkSteps(t);
    } else if NodeSteps(t) != {} {
      j :| j in NodeSteps(t);
    } else {
      NoEdges(t);
      j := PolicyStep;
    }
  }

  lemma AfterPolicy(t: Document) returns (j: Key)
    ensures Belongs(t, j) && PolicyStep in Dependencies(t, j)
  {
    if Guests(t) != {} {
      j :| j in Guests(t);
    } else if Captures(t) != {} {
      j :| j in Captures(t);
    } else {
      j := CaptureBarrier;
    }
  }

  lemma AfterConverge(t: Document) returns (j: Key)
    ensures Belongs(t, j) && Converge in Dependencies(t, j)
  {
    if HealthChecks(t) != {} {
      var h :| h in HealthChecks(t);
      j := ReleaseStep(h.id);
    } else {
      j := ReadyStep;
    }
  }

  lemma NoEdges(t: Document)
    requires WellFormed(t) && NodeSteps(t) == {}
    ensures EdgeSteps(t) == {}
  {
    hide NodeOf;
    if e :| e in t.edges {
      EdgeHasNode(t, e);
    }
  }

  lemma EdgeHasNode(t: Document, e: Edge)
    requires WellFormed(t) && e in t.edges
    ensures NodeStep(NodeOf(e.first)) in NodeSteps(t)
  {
  }

  /** The phase of a step, by name. */
  ghost function PhaseAt(s: string): nat {
    if exists k :: Name(k) == s then (var k :| Name(k) == s; Phase(k)) else 0
  }

  lemma PhaseOfName(k: Key)
    ensures PhaseAt(Name(k)) == Phase(k)
  {
    hide Name;
    var s := Name(k);
    forall j | Name(j) == s ensures j == k {
      NamesDiffer(j, k);
    }
  }

  /** No step of a validated topology names a missing dependency, and there is an order. */
  lemma StepsOrderable(t: Document, steps: Graph)
    requires WellFormed(t) && Describes(t, Keys(t), steps)
    ensures Closed(steps) && exists order :: Complete(steps, order)
  {
    hide Describes, Keys, WellFormed, Complete, PhaseAt;
    forall s, d | s in steps && d in steps[s].dependsOn
      ensures d in steps && PhaseAt(d) < PhaseAt(s)
    {
      NamedDependency(t, steps, s, d);
    }
    assert Closed(steps) && Phased(steps, PhaseAt);
    hide Closed, Phased;
    PhasedHasOrder(steps, PhaseAt);
  }

  lemma NamedDependency(t: Document, steps: Graph, s: string, d: string)
    requires WellFormed(t) && Describes(t, Keys(t), steps) && s in steps && d in steps[s].dependsOn
    ensures d in steps && PhaseAt(d) < PhaseAt(s)
  {
    hide Name, Keys, Dependencies, PhaseAt, Phase, Operation, WellFormed;
    var k :| k in Keys(t) && Name(k) == s;
    var j :| j in Dependencies(t, k) && Name(j) == d;
    DependenciesEarlier(t, k, j);
    PhaseOfName(k);
    PhaseOfName(j);
  }

  // ----- what every order of the steps looks like -----

  ghost predicate Precedes(order: seq<string>, a: string, b: string) {
    exists i, j :: 0 <= i < j < |order| && order[i] == a && order[j] == b
  }

  lemma DependencyPrecedes(t: Document, steps: Graph, order: seq<string>, k: Key, d: Key)
    requires Describes(t, Keys(t), steps) && Complete(steps, order) && k in Keys(t) && d in Dependencies(t, k)
    ensures Precedes(order, Name(d), Name(k))
  {
    hide Name, Keys, Dependencies;
    assert Name(d) in steps[Name(k)].dependsOn;
    assert Name(k) in Placed(order);
    var j :| 0 <= j < |order| && order[j] == Name(k);
    assert Name(d) in Placed(order[..j]);
    var i :| 0 <= i < j && order[..j][i] == Name(d);
  }

  lemma PrecedesTransitive(order: seq<string>, a: string, b: string, c: string)
    requires Distinct(order) && Precedes(order, a, b) && Precedes(order, b, c)
    ensures Precedes(order, a, c)
  {
    var i, j :| 0 <= i < j < |order| && order[i] == a && order[j] == b;
    var k, l :| 0 <= k < l < |order| && order[k] == b && order[l] == c;
    assert j == k;
  }

  /** In every order of the steps `preflight` comes first and `ready` last. */
  lemma PreflightFirstReadyLast(t: Document, steps: Graph, order: seq<string>)
    requires WellFormed(t) && Describes(t, Keys(t), steps) && Complete(steps, order)
    ensures order != [] && order[0] == "preflight" && order[|order| - 1] == "ready"
  {
    hide Keys, Dependencies, Phase, Operation, WellFormed;
    assert Name(Preflight) in steps by { FixedKeys(t); }
    assert Name(Preflight) in Placed(order);
    FirstStep(t, steps, order);
    LastStep(t, steps, order);
  }

  lemma FixedKeys(t: Document)
    ensures Preflight in Keys(t)
  {
  }

  lemma FirstStep(t: Document, steps: Graph, order: seq<string>)
    requires WellFormed(t) && Describes(t, Keys(t), steps) && Complete(steps, order) && order != []
    ensures order[0] == "preflight"
  {
    hide Keys, Name, Phase, Operation, WellFormed, Dependencies, Names;
    assert order[0] in steps;
    var k :| k in Keys(t) && Name(k) == order[0];
    assert Placed(order[..0]) == {};
    NoNames(Dependencies(t, k));
    if k != Preflight {
      SomeDependency(t, k);
    }
    PreflightName();
  }

  lemma NoNames(ks: set<Key>)
    ensures Names(ks) <= {} ==> ks == {}
  {
    hide Name;
    if k :| k in ks {
      assert Name(k) in Names(ks);
    }
  }

  lemma PreflightName()
    ensures Name(Preflight) == "preflight" && Name(ReadyStep) == "ready"
  {
  }

  lemma SomeDependency(t: Document, k: Key)
    requires WellFormed(t) && k in Keys(t) && k != Preflight
    ensures Dependencies(t, k) != {}
  {
    hide NodeOf, Keys;
    KeyBelongs(t, k);
    match k {
      case Network(_) => assert Preflight in Dependencies(t, k);
      case NodeStep(_) => assert Preflight in Dependencies(t, k);
      case EdgeStep(id) =>
        var e :| e in t.edges && e.id == id;
        assert NodeStep(NodeOf(e.first)) in Dependencies(t, k);
      case Guest(_) => assert PolicyStep in Dependencies(t, k);
      case Capture(_) => assert PolicyStep in Dependencies(t, k);
      case EnableData => assert CaptureBarrier in Dependencies(t, k);
      case Converge => assert EnableData in Dependencies(t, k);
      case ReleaseStep(_) => assert Converge in Dependencies(t, k);
      case Health(id) => assert ReleaseStep(id) in Dependencies(t, k);
      case _ =>
    }
  }

  lemma LastStep(t: Document, steps: Graph, order: seq<string>)
    requires WellFormed(t) && Describes(t, Keys(t), steps) && Complete(steps, order) && order != []
    ensures order[|order| - 1] == "ready"
  {
    hide Keys, Name, Phase, Operation, WellFormed, Dependencies;
    var n := |order| - 1;
    assert order[n] in steps;
    var k :| k in Keys(t) && Name(k) == order[n];
    if k != ReadyStep {
      var j := HasDependent(t, k);
      DependencyPrecedes(t, steps, order, j, k);
    }
    PreflightName();
  }

  /** Every workload is released after every capture is armed. */
  lemma CapturesBeforeReleases(t: Document, steps: Graph, order: seq<string>, e: Edge, id: string)
    requires WellFormed(t) && Describes(t, Keys(t), steps) && Complete(steps, order)
    requires e in t.edges && id in t.nodes && !t.nodes[id].kind.Switch?
    ensures Precedes(order, Name(Capture(e.id)), Name(ReleaseStep(id)))
  {
    hide Describes, Precedes, Complete, Keys, Dependencies, Name;
    Chain(t, e, id);
    OrderIsDistinct(steps, order);
    DependencyPrecedes(t, steps, order, CaptureBarrier, Capture(e.id));
    DependencyPrecedes(t, steps, order, EnableData, CaptureBarrier);
    DependencyPrecedes(t, steps, order, Converge, EnableData);
    DependencyPrecedes(t, steps, order, ReleaseStep(id), Converge);
    PrecedesTransitive(order, Name(Capture(e.id)), Name(CaptureBarrier), Name(EnableData));
    PrecedesTransitive(order, Name(Capture(e.id)), Name(EnableData), Name(Converge));
    PrecedesTransitive(order, Name(Capture(e.id)), Name(Converge), Name(ReleaseStep(id)));
  }

  lemma Chain(t: Document, e: Edge, id: string)
    requires e in t.edges && id in t.nodes && !t.nodes[id].kind.Switch?
    ensures CaptureBarrier in Keys(t) && EnableData in Keys(t) && Converge in Keys(t) && ReleaseStep(id) in Keys(t)
    ensures Capture(e.id) in Dependencies(t, CaptureBarrier) && CaptureBarrier in Dependencies(t, EnableData)
    ensures EnableData in Dependencies(t, Converge) && Converge in Dependencies(t, ReleaseStep(id))
  {
    hide Keys;
    KeyBelongs(t, CaptureBarrier);
    KeyBelongs(t, EnableData);
    KeyBelongs(t, Converge);
    KeyBelongs(t, ReleaseStep(id));
    assert Capture(e.id) in Captures(t);
  }

  lemma OrderIsDistinct(steps: Graph, order: seq<string>)
    requires Complete(steps, order)
    ensures Distinct(order)
  {
  }

  // ----- teardown -----

  /** Whether a step leaves a resource behind that teardown removes. */
  predicate Held(s: Step) {
    StartsWith(s.operation, "prepare-") || s.operation == "arm-capture"
  }

  /** The resource steps, latest first. */
  function Teardown(steps: Graph, order: seq<string>): seq<string>
    requires forall k :: k in order ==> k in steps
  {
    if order == [] then []
    else
      var n := |order| - 1;
      (if Held(steps[order[n]]) then [order[n]] else []) + Teardown(steps, order[..n])
  }

  lemma {:induction false} TeardownHolds(steps: Graph, order: seq<string>, k: string)
    requires forall k :: k in order ==> k in steps
    ensures k in Teardown(steps, order) <==> k in order && Held(steps[k])
  {
    if order != [] {
      var n := |order| - 1;
      TeardownHolds(steps, order[..n], k);
      assert order == order[..n] + [order[n]];
    }
  }

  /** Teardown lists exactly the resource steps, and whatever came first last: so dependents
      before what they depend on. */
  lemma {:induction false} TeardownReverses(steps: Graph, order: seq<string>, a: string, b: string)
    requires forall k :: k in order ==> k in steps
    requires Precedes(order, a, b) && Held(steps[a]) && Held(steps[b])
    ensures Precedes(Teardown(steps, order), b, a)
  {
    var n := |order| - 1;
    var rest := Teardown(steps, order[..n]);
    var all := Teardown(steps, order);
    var i, j :| 0 <= i < j < |order| && order[i] == a && order[j] == b;
    if j < n {
      assert order[..n][i] == a && order[..n][j] == b;
      TeardownReverses(steps, order[..n], a, b);
      var x, y :| 0 <= x < y < |rest| && rest[x] == b && rest[y] == a;
      var shift := |all| - |rest|;
      assert all[x + shift] == b && all[y + shift] == a;
    } else {
      TeardownHolds(steps, order[..n], a);
      assert order[..n][i] == a;
      var y :| 0 <= y < |rest| && rest[y] == a;
      assert all[0] == b && all[y + 1] == a;
    }
  }

  method ComputeTeardown(steps: Graph, order: seq<string>) returns (r: seq<string>)
    requires forall k :: k in order ==> k in steps
    ensures r == Teardown(steps, order)
  {
    r := [];
    var i := |order|;
    assert order[..i] == order;
    while i > 0
      invariant 0 <= i <= |order|
      invariant r + Teardown(steps, order[..i]) == Teardown(steps, order)
    {
      i := i - 1;
      assert order[..i + 1][..i] == order[..i];
      if Held(steps[order[i]]) {
        r := r + [order[i]];
      }
    }
  }

  // ----- the planner -----

  datatype Result = Planned(canonical: Document, steps: Graph, order: seq<string>, teardown: seq<string>)
                  | InvalidTopology
                  | PlannerError

  /** What a plan of an accepted document is. */
  ghost predicate IsPlan(t: Document, r: Result) {
    && r.Planned? && r.canonical == Canonical(t)
    && Describes(r.canonical, Keys(r.canonical), r.steps)
    && Greedy(r.steps, r.order) && Complete(r.steps, r.order)
    && (forall k :: k in r.order ==> k in r.steps)
    && r.teardown == Teardown(r.steps, r.order)
  }

  /** Plans exactly the accepted documents; the planner's own errors never occur. */
  method Plan(t: Document) returns (r: Result)
    ensures r.InvalidTopology? <==> !Accepted(t)
    ensures Accepted(t) ==> IsPlan(t, r)
  {
    hide Accepted, Canonical, Describes, Closed, Complete, Greedy, WellFormed;
    var validated := Validation.Validate(t);
    if validated.None? {
      return InvalidTopology;
    }
    var c := validated.value;
    CanonicalIsFixed(t);
    AcceptedIsWellFormed(c);
    DistinctEdges(c);
    var steps := Build(c);
    StepsOrderable(c, steps);
    var outcome := Kahn(steps);
    if !outcome.Ordered? {
      return PlannerError;
    }
    OrderedKeys(steps, outcome.order);
    var teardown := ComputeTeardown(steps, outcome.order);
    r := Planned(c, steps, outcome.order, teardown);
  }

  lemma DistinctEdges(t: Document)
    requires WellFormed(t)
    ensures Unique(t.edges, EdgeKey)
  {
  }

  lemma OrderedKeys(steps: Graph, order: seq<string>)
    requires Complete(steps, order)
    ensures forall k :: k in order ==> k in steps
  {
  }

  /** Documents that differ only in list order and written-out defaults have the same plan. */
  lemma OnePlan(t: Document, u: Document, p: Result, q: Result)
    requires Similar(t, u) && Accepted(t) && IsPlan(t, p) && IsPlan(u, q)
    ensures p == q
  {
    hide Accepted, Similar, Canonical, Greedy, Describes, Complete;
    OneCanonicalForm(t, u);
    SameSteps(p.canonical, p.steps, q.steps);
    SameLength(p.steps, p.order, q.order);
    GreedyUnique(p.steps, p.order, q.order);
  }

  lemma SameSteps(t: Document, a: Graph, b: Graph)
    requires Describes(t, Keys(t), a) && Describes(t, Keys(t), b)
    ensures a == b
  {
    hide Keys, Name, StepOf;
    assert a.Keys == b.Keys;
    forall s | s in a ensures a[s] == b[s] {
      var k :| k in Keys(t) && Name(k) == s;
    }
  }

  lemma SameLength(steps: Graph, a: seq<string>, b: seq<string>)
    requires Complete(steps, a) && Complete(steps, b)
    ensures |a| == |b|
  {
    DistinctCount(a);
    DistinctCount(b);
  }

  /** Steps each of which depends on the next. */
  ghost predicate Path(t: Document, path: seq<Key>) {
    |path| >= 2 && path[0] in Keys(t) && forall i :: 0 <= i < |path| - 1 ==> path[i + 1] in Dependencies(t, path[i])
  }

  lemma {:induction false} PathPrecedes(t: Document, steps: Graph, order: seq<string>, path: seq<Key>)
    requires WellFormed(t) && Describes(t, Keys(t), steps) && Complete(steps, order) && Path(t, path)
    ensures path[|path| - 1] in Keys(t) && Precedes(order, Name(path[|path| - 1]), Name(path[0]))
    decreases |path|
  {
    hide WellFormed, Describes, Complete, Keys, Dependencies, Name, Precedes;
    var k, d := path[0], path[1];
    DependenciesEarlier(t, k, d);
    DependencyPrecedes(t, steps, order, k, d);
    if |path| > 2 {
      PathPrecedes(t, steps, order, path[1..]);
      OrderIsDistinct(steps, order);
      PrecedesTransitive(order, Name(path[|path| - 1]), Name(d), Name(k));
    }
  }

  /** Teardown removes a resource before every resource its step depends on, directly or through
      other steps. */
  lemma DependentsFirst(t: Document, r: Result, path: seq<Key>)
    requires Accepted(t) && IsPlan(t, r) && Path(r.canonical, path)
    requires Held(StepOf(r.canonical, path[0])) && Held(StepOf(r.canonical, path[|path| - 1]))
    ensures Precedes(r.teardown, Name(path[0]), Name(path[|path| - 1]))
  {
    hide Accepted, Canonical, Greedy, Complete, WellFormed, Keys, Dependencies, Name, StepOf, Precedes;
    var c, k, d := r.canonical, path[0], path[|path| - 1];
    CanonicalIsFixed(t);
    AcceptedIsWellFormed(c);
    PathPrecedes(c, r.steps, r.order, path);
    TeardownReverses(r.steps, r.order, Name(d), Name(k));
  }

  /** A paused guest goes before every link, although only the policy step, which holds nothing,
      stands between them. */
  lemma GuestsBeforeLinks(t: Document, r: Result, id: string, e: Edge)
    requires Accepted(t) && IsPlan(t, r) && e in r.canonical.edges
    requires id in r.canonical.nodes && r.canonical.nodes[id].kind.Qemu?
    ensures Precedes(r.teardown, Name(Guest(id)), Name(EdgeStep(e.id)))
  {
    hide Accepted, Canonical, Greedy, Complete, Describes, Precedes, Name, Keys;
    var c := r.canonical;
    KeyBelongs(c, Guest(id));
    assert EdgeStep(e.id) in EdgeSteps(c);
    DependentsFirst(t, r, [Guest(id), PolicyStep, EdgeStep(e.id)]);
  }
}
