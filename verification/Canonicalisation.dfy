/** The canonical form does not depend on the order of any list or on whether defaults
    are written out, and validating a canonical form returns it. */
module Canonicalisation {
  import opened Options
  import opened Ordering
  import opened Topology
  import AddressPlan
  import LoopPolicy

  // ----- documents that differ only in order and written-out defaults -----

  ghost predicate SimilarVlan(v: Option<Vlan>, w: Option<Vlan>) {
    match (v, w)
    case (Some(Trunk(a)), Some(Trunk(b))) => multiset(a) == multiset(b)
    case _ => v == w
  }

  ghost predicate SimilarPort(p: Port, q: Port) {
    p.role == q.role && MediumOf(p) == MediumOf(q) && MtuOf(p) == MtuOf(q) && SimilarVlan(p.vlan, q.vlan)
  }

  ghost predicate SimilarNode(n: Node, m: Node) {
    && n.kind == m.kind && n.policy == m.policy && n.workload == m.workload && n.addresses == m.addresses
    && n.ports.Keys == m.ports.Keys
    && (forall name :: name in n.ports ==> SimilarPort(n.ports[name], m.ports[name]))
  }

  ghost predicate SimilarNodes(nodes: map<string, Node>, others: map<string, Node>) {
    && nodes.Keys == others.Keys
    && (forall name :: name in nodes ==> SimilarNode(nodes[name], others[name]))
  }

  ghost predicate SimilarFlow(f: Flow, g: Flow) {
    && f.id == g.id && f.source == g.source && f.target == g.target && f.protocol == g.protocol
    && multiset(f.networkEdges) == multiset(g.networkEdges)
  }

  ghost predicate Pointwise(fs: seq<Flow>, gs: seq<Flow>) {
    |fs| == |gs| && forall i :: 0 <= i < |fs| ==> SimilarFlow(fs[i], gs[i])
  }

  /** The flows are reordered, and so are their lists of network edges. */
  ghost predicate SimilarFlows(fs: seq<Flow>, gs: seq<Flow>) {
    exists hs :: Pointwise(fs, hs) && multiset(hs) == multiset(gs)
  }

  ghost predicate Similar(t: Document, u: Document) {
    && t.heading == u.heading && LimitsOf(t) == LimitsOf(u) && PolicyOf(t) == PolicyOf(u) && FeaturesOf(t) == FeaturesOf(u)
    && SimilarNodes(t.nodes, u.nodes)
    && multiset(t.edges) == multiset(u.edges)
    && t.application.Some? == u.application.Some?
    && (t.application.Some? ==> SimilarFlows(t.application.value, u.application.value))
    && t.networks == u.networks
    && multiset(AttachmentsOf(t)) == multiset(AttachmentsOf(u))
  }

  // ----- nodes -----

  lemma SameVlan(v: Option<Vlan>, w: Option<Vlan>)
    requires SimilarVlan(v, w) && v.Some?
    ensures VlanOk(v.value) <==> VlanOk(w.value)
    ensures VlanOk(v.value) ==> CanonicalVlan(v.value) == CanonicalVlan(w.value)
  {
    if v.value.Trunk? && w.value.Trunk? {
      var a, b := v.value.ids, w.value.ids;
      assert forall id :: id in a <==> id in multiset(a);
      assert forall id :: id in b <==> id in multiset(b);
      assert |a| == |multiset(a)| && |b| == |multiset(b)|;
      if Unique(a, VlanKey) {
        UniqueReordered(a, b, VlanKey);
        ArrangeReordered(a, b, VlanKey);
      }
      if Unique(b, VlanKey) {
        UniqueReordered(b, a, VlanKey);
      }
    }
  }

  lemma SamePort(kind: Kind, p: Port, q: Port)
    requires SimilarPort(p, q)
    ensures PortOk(kind, p) <==> PortOk(kind, q)
    ensures PortOk(kind, p) ==> CanonicalPort(p) == CanonicalPort(q)
  {
    hide VlanOk, CanonicalVlan;
    if p.vlan.Some? {
      SameVlan(p.vlan, q.vlan);
    }
  }

  lemma SameNode(n: Node, m: Node)
    requires SimilarNode(n, m)
    ensures NodeOk(n) <==> NodeOk(m)
    ensures NodeOk(n) ==> CanonicalNode(n) == CanonicalNode(m)
  {
    hide PortOk, CanonicalPort, Identifier;
    forall name | name in n.ports
      ensures PortOk(n.kind, n.ports[name]) <==> PortOk(n.kind, m.ports[name])
      ensures InterfaceOk(n, name, n.ports[name]) <==> InterfaceOk(m, name, m.ports[name])
      ensures PortOk(n.kind, n.ports[name]) ==> CanonicalPort(n.ports[name]) == CanonicalPort(m.ports[name])
    {
      SamePort(n.kind, n.ports[name], m.ports[name]);
    }
  }

  lemma SameNodes(nodes: map<string, Node>, others: map<string, Node>)
    requires SimilarNodes(nodes, others)
    ensures NodesOk(nodes) <==> NodesOk(others)
    ensures NodesOk(nodes) ==> CanonicalNodes(nodes) == CanonicalNodes(others)
    ensures LoopNodes(nodes) == LoopNodes(others)
    ensures ManagementPorts(nodes) == ManagementPorts(others)
  {
    hide NodeOk, CanonicalNode, Identifier;
    forall name | name in nodes
      ensures NodeOk(nodes[name]) <==> NodeOk(others[name])
      ensures NodeOk(nodes[name]) ==> CanonicalNode(nodes[name]) == CanonicalNode(others[name])
    {
      SameNode(nodes[name], others[name]);
    }
  }

  // ----- edges -----

  lemma SameEdge(nodes: map<string, Node>, others: map<string, Node>, policy: Policy, e: Edge)
    requires SimilarNodes(nodes, others)
    ensures EdgeOk(nodes, policy, e) <==> EdgeOk(others, policy, e)
  {
    SameEndpoint(nodes, others, e.first);
    SameEndpoint(nodes, others, e.second);
  }

  lemma SameEndpoint(nodes: map<string, Node>, others: map<string, Node>, e: string)
    requires SimilarNodes(nodes, others)
    ensures Endpoint(nodes, e).Some? <==> Endpoint(others, e).Some?
    ensures Endpoint(nodes, e).Some? ==> SimilarPort(Endpoint(nodes, e).value, Endpoint(others, e).value)
    ensures NodeOf(e) in nodes ==> nodes[NodeOf(e)].kind == others[NodeOf(e)].kind
  {
  }

  lemma SameEdges(nodes: map<string, Node>, others: map<string, Node>, policy: Policy, es: seq<Edge>, fs: seq<Edge>)
    requires SimilarNodes(nodes, others) && multiset(es) == multiset(fs)
    ensures EdgesOk(nodes, policy, es) ==> EdgesOk(others, policy, fs)
    ensures EdgesOk(others, policy, fs) ==> EdgesOk(nodes, policy, es)
    ensures EdgesOk(nodes, policy, es) ==> Arrange(es, EdgeKey) == Arrange(fs, EdgeKey)
    ensures EdgeIds(es) == EdgeIds(fs) && LinksOf(es) == LinksOf(fs) && |es| == |fs|
  {
    hide EdgeOk;
    SameMembers(es, fs);
    forall e | e in es ensures EdgeOk(nodes, policy, e) <==> EdgeOk(others, policy, e) {
      SameEdge(nodes, others, policy, e);
    }
    if Pairwise(es, EdgesApart) {
      PairwiseReordered(es, fs, EdgesApart);
      ArrangeReordered(es, fs, EdgeKey);
    }
    if Pairwise(fs, EdgesApart) {
      PairwiseReordered(fs, es, EdgesApart);
    }
  }

  lemma SameMembers<T>(s: seq<T>, t: seq<T>)
    requires multiset(s) == multiset(t)
    ensures |s| == |t| && forall x :: x in s <==> x in t
  {
    assert forall x :: x in s <==> x in multiset(s);
    assert forall x :: x in t <==> x in multiset(t);
    assert |s| == |multiset(s)| && |t| == |multiset(t)|;
  }

  // ----- flows -----

  lemma SameFlow(nodes: map<string, Node>, others: map<string, Node>, ids: set<string>, f: Flow, g: Flow)
    requires SimilarNodes(nodes, others) && SimilarFlow(f, g)
    ensures FlowOk(nodes, ids, f) <==> FlowOk(others, ids, g)
    ensures FlowOk(nodes, ids, f) ==> CanonicalFlow(f) == CanonicalFlow(g)
  {
    hide Identifier;
    SameMembers(f.networkEdges, g.networkEdges);
    if Unique(f.networkEdges, Self) {
      UniqueReordered(f.networkEdges, g.networkEdges, Self);
      ArrangeReordered(f.networkEdges, g.networkEdges, Self);
    }
    if Unique(g.networkEdges, Self) {
      UniqueReordered(g.networkEdges, f.networkEdges, Self);
    }
  }

  lemma PointwiseFlows(nodes: map<string, Node>, others: map<string, Node>, ids: set<string>, fs: seq<Flow>, hs: seq<Flow>)
    requires SimilarNodes(nodes, others) && Pointwise(fs, hs)
    ensures FlowsOk(nodes, ids, fs) <==> FlowsOk(others, ids, hs)
    ensures FlowsOk(nodes, ids, fs) ==> Normalized(fs) == Normalized(hs)
  {
    hide FlowOk, CanonicalFlow;
    forall i | 0 <= i < |fs|
      ensures FlowOk(nodes, ids, fs[i]) <==> FlowOk(others, ids, hs[i])
      ensures FlowOk(nodes, ids, fs[i]) ==> CanonicalFlow(fs[i]) == CanonicalFlow(hs[i])
      ensures FlowKey(fs[i]) == FlowKey(hs[i])
    {
      SameFlow(nodes, others, ids, fs[i], hs[i]);
    }
  }

  lemma ReorderedFlows(nodes: map<string, Node>, ids: set<string>, hs: seq<Flow>, gs: seq<Flow>)
    requires multiset(hs) == multiset(gs)
    ensures FlowsOk(nodes, ids, hs) <==> FlowsOk(nodes, ids, gs)
    ensures FlowsOk(nodes, ids, hs) ==> CanonicalFlows(hs) == CanonicalFlows(gs)
  {
    hide FlowOk;
    SameMembers(hs, gs);
    if Unique(hs, FlowKey) {
      UniqueReordered(hs, gs, FlowKey);
      NormalizedReordered(hs, gs);
      UniqueNormalized(hs);
      ArrangeReordered(Normalized(hs), Normalized(gs), FlowKey);
    }
    if Unique(gs, FlowKey) {
      UniqueReordered(gs, hs, FlowKey);
    }
  }

  lemma UniqueNormalized(fs: seq<Flow>)
    requires Unique(fs, FlowKey)
    ensures Unique(Normalized(fs), FlowKey)
  {
    hide CanonicalFlow;
    var ns := Normalized(fs);
    forall i, j | 0 <= i < j < |ns| ensures FlowKey(ns[i]) != FlowKey(ns[j]) {
      KeepsKey(fs[i]);
      KeepsKey(fs[j]);
    }
  }

  lemma KeepsKey(f: Flow)
    ensures FlowKey(CanonicalFlow(f)) == FlowKey(f)
  {
  }

  lemma {:induction false} NormalizedReordered(hs: seq<Flow>, gs: seq<Flow>)
    requires multiset(hs) == multiset(gs)
    ensures multiset(Normalized(hs)) == multiset(Normalized(gs))
    decreases |hs|
  {
    hide CanonicalFlow;
    SameMembers(hs, gs);
    if hs == [] {
      assert Normalized(hs) == Normalized(gs);
    } else {
      var x := hs[0];
      assert x in gs;
      var k :| 0 <= k < |gs| && gs[k] == x;
      Picked(hs, 0);
      Picked(gs, k);
      assert multiset(Remove(hs, 0)) == multiset(hs) - multiset{x};
      assert multiset(Remove(gs, k)) == multiset(gs) - multiset{x};
      NormalizedReordered(Remove(hs, 0), Remove(gs, k));
    }
  }

  function Remove(s: seq<Flow>, k: nat): seq<Flow>
    requires k < |s|
  {
    s[..k] + s[k + 1..]
  }

  lemma Picked(s: seq<Flow>, k: nat)
    requires k < |s|
    ensures multiset(s) == multiset(Remove(s, k)) + multiset{s[k]}
    ensures multiset(Normalized(s)) == multiset(Normalized(Remove(s, k))) + multiset{CanonicalFlow(s[k])}
  {
    hide CanonicalFlow;
    assert s == s[..k] + [s[k]] + s[k + 1..];
    assert Normalized(s) == Normalized(s[..k]) + [CanonicalFlow(s[k])] + Normalized(s[k + 1..]);
    assert Normalized(Remove(s, k)) == Normalized(s[..k]) + Normalized(s[k + 1..]);
  }

  lemma SameFlows(nodes: map<string, Node>, others: map<string, Node>, ids: set<string>, fs: seq<Flow>, gs: seq<Flow>)
    requires SimilarNodes(nodes, others) && SimilarFlows(fs, gs)
    ensures FlowsOk(nodes, ids, fs) <==> FlowsOk(others, ids, gs)
    ensures FlowsOk(nodes, ids, fs) ==> CanonicalFlows(fs) == CanonicalFlows(gs)
  {
    hide FlowsOk, SimilarNodes;
    var hs :| Pointwise(fs, hs) && multiset(hs) == multiset(gs);
    PointwiseFlows(nodes, others, ids, fs, hs);
    ReorderedFlows(others, ids, hs, gs);
  }

  // ----- attachments -----

  lemma SameAttachments(nets: map<string, AddressPlan.Network>, ports: set<string>,
                        s: seq<AddressPlan.Attachment>, t: seq<AddressPlan.Attachment>)
    requires multiset(s) == multiset(t)
    ensures AddressPlan.AttachmentsOk(nets, ports, s) ==> AddressPlan.AttachmentsOk(nets, ports, t)
    ensures AddressPlan.AttachmentsOk(nets, ports, s) ==> Arrange(s, AttachmentKey) == Arrange(t, AttachmentKey)
  {
    hide AddressPlan.AttachmentOk;
    SameMembers(s, t);
    if AddressPlan.AttachmentsOk(nets, ports, s) {
      PairwiseReordered(s, t, AddressPlan.Apart);
      ArrangeReordered(s, t, AttachmentKey);
      forall i | 0 <= i < |t| ensures AddressPlan.AttachmentOk(nets, ports, t[i]) {
        assert t[i] in s;
      }
    }
  }

  // ----- the theorems -----

  /** Similar documents are accepted alike and have one canonical form. */
  lemma OneCanonicalForm(t: Document, u: Document)
    requires Similar(t, u)
    ensures Accepted(t) <==> Accepted(u)
    ensures Accepted(t) ==> Canonical(t) == Canonical(u)
  {
    hide NodesOk, EdgesOk, FlowsOk, SimilarNodes, SimilarFlows, LoopPolicy.LoopsProtected, NetworksOk,
      AddressPlan.AttachmentsOk, CanonicalNodes, CanonicalFlows, ManagementPorts, LoopNodes, EdgeIds, LinksOf;
    SameCount(t.nodes, u.nodes);
    SameNodes(t.nodes, u.nodes);
    SameEdges(t.nodes, u.nodes, PolicyOf(t), t.edges, u.edges);
    if t.application.Some? {
      SameFlows(t.nodes, u.nodes, EdgeIds(t.edges), t.application.value, u.application.value);
    }
    SameAttachments(t.networks, ManagementPorts(t.nodes), AttachmentsOf(t), AttachmentsOf(u));
    SameAttachments(t.networks, ManagementPorts(t.nodes), AttachmentsOf(u), AttachmentsOf(t));
  }

  lemma SameCount(nodes: map<string, Node>, others: map<string, Node>)
    requires SimilarNodes(nodes, others)
    ensures |nodes| == |others|
  {
    assert |nodes| == |nodes.Keys| && |others| == |others.Keys|;
  }

  lemma CanonicalIsSimilar(t: Document)
    requires Accepted(t)
    ensures Similar(t, Canonical(t))
  {
    hide NodesOk, EdgeOk, FlowOk, LoopPolicy.LoopsProtected, NetworksOk, AddressPlan.AttachmentOk, SimilarNodes,
      SimilarFlows, Arrange;
    CanonicalNodesSimilar(t.nodes);
    ArrangeSorts(t.edges, EdgeKey);
    ArrangeSorts(AttachmentsOf(t), AttachmentKey);
    if t.application.Some? {
      CanonicalFlowsSimilar(t.nodes, EdgeIds(t.edges), t.application.value);
    }
  }

  lemma CanonicalNodesSimilar(nodes: map<string, Node>)
    requires NodesOk(nodes)
    ensures SimilarNodes(nodes, CanonicalNodes(nodes))
  {
    hide Identifier, Arrange;
    forall name, port | name in nodes && port in nodes[name].ports
      ensures SimilarPort(nodes[name].ports[port], CanonicalPort(nodes[name].ports[port]))
    {
      var p := nodes[name].ports[port];
      assert NodeOk(nodes[name]);
      assert PortOk(nodes[name].kind, p);
      if p.vlan.Some? && p.vlan.value.Trunk? {
        ArrangeSorts(p.vlan.value.ids, VlanKey);
      }
    }
  }

  lemma CanonicalFlowsSimilar(nodes: map<string, Node>, ids: set<string>, fs: seq<Flow>)
    requires FlowsOk(nodes, ids, fs)
    ensures SimilarFlows(fs, CanonicalFlows(fs))
  {
    hide Identifier, Arrange;
    var hs := Normalized(fs);
    forall i | 0 <= i < |fs| ensures SimilarFlow(fs[i], hs[i]) {
      assert FlowOk(nodes, ids, fs[i]);
      ArrangeSorts(fs[i].networkEdges, Self);
    }
    UniqueNormalized(fs);
    ArrangeSorts(hs, FlowKey);
    assert Pointwise(fs, hs);
  }

  /** Validating a canonical form accepts it and returns it unchanged. */
  lemma CanonicalIsFixed(t: Document)
    requires Accepted(t)
    ensures Accepted(Canonical(t)) && Canonical(Canonical(t)) == Canonical(t)
  {
    hide Accepted, Similar, Canonical;
    CanonicalIsSimilar(t);
    OneCanonicalForm(t, Canonical(t));
  }
}
