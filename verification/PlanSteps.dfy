/** The steps that realise a topology, their names, operations and dependencies. */
module PlanSteps {
  import opened Ordering
  import opened Topology
  import opened Scheduling

  // ----- steps -----

  datatype Key = Preflight
               | Network(id: string)
               | NodeStep(id: string)
               | EdgeStep(id: string)
               | PolicyStep
               | Guest(id: string)
               | Capture(id: string)
               | CaptureBarrier
               | EnableData
               | Converge
               | ReleaseStep(id: string)
               | Health(id: string)
               | ReadyStep

  function Name(k: Key): string {
    match k
    case Preflight => "preflight"
    case Network(id) => "management/" + id
    case NodeStep(id) => "node/" + id
    case EdgeStep(id) => "edge/" + id
    case PolicyStep => "policy"
    case Guest(id) => "guest/" + id + "/paused"
    case Capture(id) => "capture/" + id
    case CaptureBarrier => "capture-barrier"
    case EnableData => "enable-data"
    case Converge => "converge"
    case ReleaseStep(id) => "release/" + id
    case Health(id) => "health/" + id
    case ReadyStep => "ready"
  }

  function Names(ks: set<Key>): set<string> {
    set k | k in ks :: Name(k)
  }

  /** The kinds of step are told apart by their first letters. */
  function Letters(k: Key): string {
    match k
    case Preflight => "pr"
    case Network(_) => "m"
    case NodeStep(_) => "n"
    case EdgeStep(_) => "ed"
    case PolicyStep => "po"
    case Guest(_) => "g"
    case Capture(_) => "capture/"
    case CaptureBarrier => "capture-"
    case EnableData => "en"
    case Converge => "co"
    case ReleaseStep(_) => "rel"
    case Health(_) => "h"
    case ReadyStep => "rea"
  }

  lemma NameLetters(k: Key)
    ensures Letters(k) <= Name(k)
  {
  }

  lemma NamesDiffer(j: Key, k: Key)
    requires Name(j) == Name(k)
    ensures j == k
  {
    NameLetters(j);
    NameLetters(k);
    SameLetters(j, k);
    match j {
      case Network(id) => assert Name(j)[11..] == id && Name(k)[11..] == k.id;
      case NodeStep(id) => assert Name(j)[5..] == id && Name(k)[5..] == k.id;
      case EdgeStep(id) => assert Name(j)[5..] == id && Name(k)[5..] == k.id;
      case Guest(id) => assert Name(j)[6..|Name(j)| - 7] == id && Name(k)[6..|Name(k)| - 7] == k.id;
      case Capture(id) => assert Name(j)[8..] == id && Name(k)[8..] == k.id;
      case ReleaseStep(id) => assert Name(j)[8..] == id && Name(k)[8..] == k.id;
      case Health(id) => assert Name(j)[7..] == id && Name(k)[7..] == k.id;
      case _ =>
    }
  }

  lemma SameLetters(j: Key, k: Key)
    requires Name(j) == Name(k) && Letters(j) <= Name(j) && Letters(k) <= Name(k)
    ensures Letters(j) == Letters(k)
  {
    hide Name;
    var s := Name(j);
    assert s[0] == Letters(j)[0] == Letters(k)[0];
    if |Letters(j)| > 1 && |Letters(k)| > 1 {
      assert s[1] == Letters(j)[1] == Letters(k)[1];
    }
    if |Letters(j)| > 2 && |Letters(k)| > 2 {
      assert s[2] == Letters(j)[2] == Letters(k)[2];
    }
    if |Letters(j)| > 7 && |Letters(k)| > 7 {
      assert s[7] == Letters(j)[7] == Letters(k)[7];
    }
  }

  // ----- the steps of a topology -----

  predicate StartsWith(s: string, prefix: string) {
    |prefix| <= |s| && s[..|prefix|] == prefix
  }

  function NetworkSteps(t: Document): set<Key> {
    set id | id in t.networks :: Network(id)
  }

  function NodeSteps(t: Document): set<Key> {
    set id | id in t.nodes :: NodeStep(id)
  }

  function EdgeSteps(t: Document): set<Key> {
    set e | e in t.edges :: EdgeStep(e.id)
  }

  function Guests(t: Document): set<Key> {
    set id | id in t.nodes && t.nodes[id].kind.Qemu? :: Guest(id)
  }

  function Captures(t: Document): set<Key> {
    set e | e in t.edges :: Capture(e.id)
  }

  function Releases(t: Document): set<Key> {
    set id | id in t.nodes && !t.nodes[id].kind.Switch? :: ReleaseStep(id)
  }

  function HealthChecks(t: Document): set<Key> {
    set id | id in t.nodes && !t.nodes[id].kind.Switch? :: Health(id)
  }

  const FIXED: set<Key> := {Preflight, PolicyStep, CaptureBarrier, EnableData, Converge, ReadyStep}

  function Keys(t: Document): set<Key> {
    FIXED + NetworkSteps(t) + NodeSteps(t) + EdgeSteps(t) + Guests(t) + Captures(t) + Releases(t) + HealthChecks(t)
  }

  /** The networks a node's management ports are attached to. */
  function AttachedNetworks(t: Document, id: string): set<Key> {
    set a | a in AttachmentsOf(t) && StartsWith(a.endpoint, id + ":") :: Network(a.network)
  }

  /** The nodes at the ends of an edge. */
  function EndNodes(t: Document, id: string): set<Key> {
    (set e | e in t.edges && e.id == id :: NodeStep(NodeOf(e.first)))
    + (set e | e in t.edges && e.id == id :: NodeStep(NodeOf(e.second)))
  }

  function OrElse(ks: set<Key>, k: Key): set<Key> {
    if ks == {} then {k} else ks
  }

  /** What each step waits for. */
  function Dependencies(t: Document, k: Key): set<Key> {
    match k
    case Preflight => {}
    case Network(_) => {Preflight}
    case NodeStep(id) => {Preflight} + AttachedNetworks(t, id)
    case EdgeStep(id) => EndNodes(t, id)
    case PolicyStep => OrElse(NetworkSteps(t) + NodeSteps(t) + EdgeSteps(t), Preflight)
    case Guest(id) => {PolicyStep, NodeStep(id)}
    case Capture(id) => {PolicyStep, EdgeStep(id)}
    case CaptureBarrier => OrElse(Guests(t) + Captures(t), PolicyStep)
    case EnableData => {CaptureBarrier}
    case Converge => {EnableData}
    case ReleaseStep(id) =>
      {Converge, NodeStep(id)} + (if id in t.nodes && t.nodes[id].kind.Qemu? then {Guest(id)} else {})
    case Health(id) => {ReleaseStep(id)}
    case ReadyStep => OrElse(HealthChecks(t), Converge)
  }

  function Operation(t: Document, k: Key): string {
    match k
    case Preflight => "verify-runtime-and-reserve"
    case Network(_) => "prepare-management"
    case NodeStep(id) =>
      if id !in t.nodes || t.nodes[id].kind.Docker? then "prepare-gated-container"
      else if t.nodes[id].kind.Switch? then "prepare-ovs-bridge" else "prepare-guest-resources"
    case EdgeStep(_) => "prepare-disabled-link"
    case PolicyStep => "configure-vlan-and-tree"
    case Guest(_) => "prepare-paused-guest"
    case Capture(_) => "arm-capture"
    case CaptureBarrier => "await-capture-activation"
    case EnableData => "enable-data-links"
    case Converge => "await-network-policy"
    case ReleaseStep(id) => if id in t.nodes && t.nodes[id].kind.Qemu? then "continue-guest" else "release-workload"
    case Health(_) => "await-workload-readiness"
    case ReadyStep => "mark-run-ready"
  }

  function StepOf(t: Document, k: Key): Step {
    Step(Operation(t, k), Names(Dependencies(t, k)))
  }

  /** `steps` holds exactly the steps `ks`, under their names. */
  ghost predicate Describes(t: Document, ks: set<Key>, steps: Graph) {
    && (forall k :: k in ks ==> Name(k) in steps && steps[Name(k)] == StepOf(t, k))
    && (forall s :: s in steps ==> exists k :: k in ks && Name(k) == s)
  }

  lemma DescribesMore(t: Document, ks: set<Key>, steps: Graph, k: Key)
    requires Describes(t, ks, steps)
    ensures Describes(t, ks + {k}, steps[Name(k) := StepOf(t, k)])
  {
    hide Name, StepOf;
    forall j | j in ks && Name(j) == Name(k) ensures j == k {
      NamesDiffer(j, k);
    }
  }

  // ----- building the steps -----

  lemma Unfold(t: Document, k: Key)
    ensures StepOf(t, k) == Step(Operation(t, k), Names(Dependencies(t, k)))
  {
  }

  method AddNetworks(t: Document, steps: Graph, ghost ks: set<Key>) returns (r: Graph, preparation: set<Key>)
    requires Describes(t, ks, steps)
    ensures Describes(t, ks + NetworkSteps(t), r) && preparation == NetworkSteps(t)
  {
    hide Name, StepOf, Describes, Names;
    r, preparation := steps, {};
    var rest := t.networks.Keys;
    ghost var done := ks;
    while rest != {}
      invariant rest <= t.networks.Keys && Describes(t, done, r) && done == ks + preparation
      invariant preparation == set id | id in t.networks.Keys - rest :: Network(id)
      decreases rest
    {
      var id :| id in rest;
      var key := Network(id);
      DescribesMore(t, done, r, key);
      Unfold(t, key);
      r := r[Name(key) := Step("prepare-management", Names({Preflight}))];
      preparation, done := preparation + {key}, done + {key};
      rest := rest - {id};
    }
    assert t.networks.Keys - rest == t.networks.Keys;
    assert preparation == NetworkSteps(t);
  }

  /** The networks of the attachments whose endpoint names the node. */
  method FindNetworks(t: Document, id: string) returns (deps: set<Key>)
    ensures deps == AttachedNetworks(t, id)
  {
    deps := {};
    var atts := AttachmentsOf(t);
    for i := 0 to |atts|
      invariant deps == set a | a in atts[..i] && StartsWith(a.endpoint, id + ":") :: Network(a.network)
    {
      assert atts[..i + 1] == atts[..i] + [atts[i]];
      if StartsWith(atts[i].endpoint, id + ":") {
        deps := deps + {Network(atts[i].network)};
      }
    }
    assert atts[..|atts|] == atts;
  }

  method AddNodes(t: Document, steps: Graph, ghost ks: set<Key>) returns (r: Graph, preparation: set<Key>)
    requires Describes(t, ks, steps)
    ensures Describes(t, ks + NodeSteps(t), r) && preparation == NodeSteps(t)
  {
    hide Name, StepOf, Describes, Names, AttachedNetworks;
    r, preparation := steps, {};
    var rest := t.nodes.Keys;
    ghost var done := ks;
    while rest != {}
      invariant rest <= t.nodes.Keys && Describes(t, done, r) && done == ks + preparation
      invariant preparation == set id | id in t.nodes.Keys - rest :: NodeStep(id)
      decreases rest
    {
      var id :| id in rest;
      var key := NodeStep(id);
      var networks := FindNetworks(t, id);
      var operation := match t.nodes[id].kind
        case Switch => "prepare-ovs-bridge"
        case Qemu => "prepare-guest-resources"
        case Docker => "prepare-gated-container";
      DescribesMore(t, done, r, key);
      Unfold(t, key);
      r := r[Name(key) := Step(operation, Names({Preflight} + networks))];
      preparation, done := preparation + {key}, done + {key};
      rest := rest - {id};
    }
    assert t.nodes.Keys - rest == t.nodes.Keys;
    assert preparation == NodeSteps(t);
  }

  method AddEdges(t: Document, steps: Graph, ghost ks: set<Key>) returns (r: Graph, preparation: set<Key>)
    requires Describes(t, ks, steps) && Unique(t.edges, EdgeKey)
    ensures Describes(t, ks + EdgeSteps(t), r) && preparation == EdgeSteps(t)
  {
    hide Name, StepOf, Describes, Names, NodeOf;
    r, preparation := steps, {};
    ghost var done := ks;
    for i := 0 to |t.edges|
      invariant Describes(t, done, r) && done == ks + preparation
      invariant preparation == set e | e in t.edges[..i] :: EdgeStep(e.id)
    {
      var e := t.edges[i];
      var key := EdgeStep(e.id);
      DescribesMore(t, done, r, key);
      Unfold(t, key);
      OwnEnds(t, i);
      r := r[Name(key) := Step("prepare-disabled-link", Names({NodeStep(NodeOf(e.first)), NodeStep(NodeOf(e.second))}))];
      preparation, done := preparation + {key}, done + {key};
      assert t.edges[..i + 1] == t.edges[..i] + [e];
    }
    assert t.edges[..|t.edges|] == t.edges;
    assert preparation == EdgeSteps(t);
  }

  lemma OwnEnds(t: Document, i: nat)
    requires Unique(t.edges, EdgeKey) && i < |t.edges|
    ensures
      var e := t.edges[i];
      EndNodes(t, e.id) == {NodeStep(NodeOf(e.first)), NodeStep(NodeOf(e.second))}
  {
    hide NodeOf;
    var e := t.edges[i];
    forall f | f in t.edges && f.id == e.id ensures f == e {
      var j :| 0 <= j < |t.edges| && t.edges[j] == f;
      assert EdgeKey(t.edges[i]) == EdgeKey(t.edges[j]);
    }
    assert e in t.edges;
  }

  method AddGuests(t: Document, steps: Graph, ghost ks: set<Key>) returns (r: Graph, captures: set<Key>)
    requires Describes(t, ks, steps)
    ensures Describes(t, ks + Guests(t), r) && captures == Guests(t)
  {
    hide Name, StepOf, Describes, Names;
    r, captures := steps, {};
    var rest := t.nodes.Keys;
    ghost var done := ks;
    while rest != {}
      invariant rest <= t.nodes.Keys && Describes(t, done, r) && done == ks + captures
      invariant captures == set id | id in t.nodes.Keys - rest && t.nodes[id].kind.Qemu? :: Guest(id)
      decreases rest
    {
      var id :| id in rest;
      if t.nodes[id].kind.Qemu? {
        var key := Guest(id);
        DescribesMore(t, done, r, key);
        Unfold(t, key);
        r := r[Name(key) := Step("prepare-paused-guest", Names({PolicyStep, NodeStep(id)}))];
        captures, done := captures + {key}, done + {key};
      }
      rest := rest - {id};
    }
    assert t.nodes.Keys - rest == t.nodes.Keys;
    assert captures == Guests(t);
  }

  method AddCaptures(t: Document, steps: Graph, ghost ks: set<Key>) returns (r: Graph, captures: set<Key>)
    requires Describes(t, ks, steps)
    ensures Describes(t, ks + Captures(t), r) && captures == Captures(t)
  {
    hide Name, StepOf, Describes, Names;
    r, captures := steps, {};
    ghost var done := ks;
    for i := 0 to |t.edges|
      invariant Describes(t, done, r) && done == ks + captures
      invariant captures == set e | e in t.edges[..i] :: Capture(e.id)
    {
      var e := t.edges[i];
      var key := Capture(e.id);
      DescribesMore(t, done, r, key);
      Unfold(t, key);
      r := r[Name(key) := Step("arm-capture", Names({PolicyStep, EdgeStep(e.id)}))];
      captures, done := captures + {key}, done + {key};
      assert t.edges[..i + 1] == t.edges[..i] + [e];
    }
    assert t.edges[..|t.edges|] == t.edges;
    assert captures == Captures(t);
  }

  method AddReleases(t: Document, steps: Graph, ghost ks: set<Key>) returns (r: Graph, health: set<Key>)
    requires Describes(t, ks, steps)
    ensures Describes(t, ks + Releases(t) + HealthChecks(t), r) && health == HealthChecks(t)
  {
    hide Name, StepOf, Describes, Names;
    r, health := steps, {};
    var rest := t.nodes.Keys;
    ghost var done, released := ks, {};
    while rest != {}
      invariant rest <= t.nodes.Keys && Describes(t, done, r) && done == ks + released + health
      invariant released == set id | id in t.nodes.Keys - rest && !t.nodes[id].kind.Switch? :: ReleaseStep(id)
      invariant health == set id | id in t.nodes.Keys - rest && !t.nodes[id].kind.Switch? :: Health(id)
      decreases rest
    {
      var id :| id in rest;
      if !t.nodes[id].kind.Switch? {
        var deps := {Converge, NodeStep(id)};
        var operation := "release-workload";
        if t.nodes[id].kind.Qemu? {
          deps := deps + {Guest(id)};
          operation := "continue-guest";
        }
        DescribesMore(t, done, r, ReleaseStep(id));
        Unfold(t, ReleaseStep(id));
        assert deps == Dependencies(t, ReleaseStep(id));
        r := r[Name(ReleaseStep(id)) := Step(operation, Names(deps))];
        released, done := released + {ReleaseStep(id)}, done + {ReleaseStep(id)};
        DescribesMore(t, done, r, Health(id));
        Unfold(t, Health(id));
        r := r[Name(Health(id)) := Step("await-workload-readiness", Names({ReleaseStep(id)}))];
        health, done := health + {Health(id)}, done + {Health(id)};
      }
      rest := rest - {id};
    }
    assert t.nodes.Keys - rest == t.nodes.Keys;
    assert health == HealthChecks(t) && released == Releases(t);
  }

  /** One step with a fixed name. */
  method AddFixed(t: Document, steps: Graph, ghost ks: set<Key>, key: Key, operation: string, deps: set<Key>)
    returns (r: Graph)
    requires Describes(t, ks, steps) && operation == Operation(t, key) && deps == Dependencies(t, key)
    ensures Describes(t, ks + {key}, r)
  {
    DescribesMore(t, ks, steps, key);
    r := steps[Name(key) := Step(operation, Names(deps))];
  }

  function PrepareKeys(t: Document): set<Key> {
    {Preflight} + NetworkSteps(t) + NodeSteps(t) + EdgeSteps(t) + {PolicyStep}
  }

  function CaptureKeys(t: Document): set<Key> {
    Guests(t) + Captures(t) + {CaptureBarrier, EnableData, Converge}
  }

  method BuildPreparation(t: Document) returns (steps: Graph)
    requires Unique(t.edges, EdgeKey)
    ensures Describes(t, PrepareKeys(t), steps)
  {
    hide Name, StepOf, Describes, Names, NetworkSteps, NodeSteps, EdgeSteps;
    Nothing(t);
    steps := AddFixed(t, map[], {}, Preflight, "verify-runtime-and-reserve", {});
    ghost var ks := {} + {Preflight};
    var networks, nodes, edges;
    steps, networks := AddNetworks(t, steps, ks);
    ks := ks + NetworkSteps(t);
    steps, nodes := AddNodes(t, steps, ks);
    ks := ks + NodeSteps(t);
    steps, edges := AddEdges(t, steps, ks);
    ks := ks + EdgeSteps(t);
    var preparation := networks + nodes + edges;
    if preparation == {} {
      preparation := {Preflight};
    }
    steps := AddFixed(t, steps, ks, PolicyStep, "configure-vlan-and-tree", preparation);
    assert ks + {PolicyStep} == PrepareKeys(t);
  }

  method BuildCaptures(t: Document, before: Graph, ghost given: set<Key>) returns (steps: Graph)
    requires Describes(t, given, before)
    ensures Describes(t, given + CaptureKeys(t), steps)
  {
    hide Name, StepOf, Describes, Names, Guests, Captures, CaptureKeys;
    var guests, edges;
    steps, guests := AddGuests(t, before, given);
    ghost var ks := given + Guests(t);
    steps, edges := AddCaptures(t, steps, ks);
    ks := ks + Captures(t);
    var captures := guests + edges;
    if captures == {} {
      captures := {PolicyStep};
    }
    steps := AddFixed(t, steps, ks, CaptureBarrier, "await-capture-activation", captures);
    ks := ks + {CaptureBarrier};
    steps := AddFixed(t, steps, ks, EnableData, "enable-data-links", {CaptureBarrier});
    ks := ks + {EnableData};
    steps := AddFixed(t, steps, ks, Converge, "await-network-policy", {EnableData});
    CaptureKeysAdded(t, given);
  }

  lemma CaptureKeysAdded(t: Document, given: set<Key>)
    ensures given + Guests(t) + Captures(t) + {CaptureBarrier} + {EnableData} + {Converge} == given + CaptureKeys(t)
  {
    hide Guests, Captures;
  }

  /** All steps of a topology whose edges have distinct identifiers. */
  method Build(t: Document) returns (steps: Graph)
    requires Unique(t.edges, EdgeKey)
    ensures Describes(t, Keys(t), steps)
  {
    hide Name, StepOf, Describes, Names, Releases, HealthChecks, PrepareKeys, CaptureKeys, Keys;
    steps := BuildPreparation(t);
    ghost var ks := PrepareKeys(t);
    steps := BuildCaptures(t, steps, ks);
    ks := ks + CaptureKeys(t);
    var health;
    steps, health := AddReleases(t, steps, ks);
    ks := ks + Releases(t) + HealthChecks(t);
    if health == {} {
      health := {Converge};
    }
    steps := AddFixed(t, steps, ks, ReadyStep, "mark-run-ready", health);
    AllKeys(t);
  }

  lemma AllKeys(t: Document)
    ensures PrepareKeys(t) + CaptureKeys(t) + Releases(t) + HealthChecks(t) + {ReadyStep} == Keys(t)
  {
    hide NetworkSteps, NodeSteps, EdgeSteps, Guests, Captures, Releases, HealthChecks;
  }

  lemma Nothing(t: Document)
    ensures Describes(t, {}, map[])
  {
  }
}
