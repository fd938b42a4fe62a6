/** The validator's passes over a topology, proved to accept exactly the acceptable
    documents and to return their canonical form. */
module Validation {
  import opened Options
  import opened Ordering
  import opened Topology
  import AddressPlan
  import LoopPolicy

  // ----- nodes -----

  method CheckVlan(v: Vlan) returns (ok: bool, canonical: Vlan)
    ensures ok <==> VlanOk(v)
    ensures ok ==> canonical == CanonicalVlan(v)
  {
    canonical := v;
    match v {
      case Access(id) =>
        ok := VlanIdOk(id);
      case Trunk(ids) =>
        var seen: set<nat> := {};
        for i := 0 to |ids|
          invariant seen == set id | id in ids[..i]
          invariant forall id :: id in ids[..i] ==> VlanIdOk(id)
          invariant Unique(ids[..i], VlanKey)
        {
          var id := ids[i];
          assert ids[..i + 1] == ids[..i] + [id];
          if !VlanIdOk(id) {
            return false, v;
          }
          if id in seen {
            var j :| 0 <= j < i && ids[j] == id;
            assert VlanKey(ids[j]) == VlanKey(ids[i]);
            return false, v;
          }
          FreshVlan(ids, i);
          seen := seen + {id};
        }
        assert ids[..|ids|] == ids;
        ok := ids != [];
        var sorted := Sort(ids, VlanKey);
        UniqueReordered(ids, sorted, VlanKey);
        SortIsArrange(ids, sorted, VlanKey);
        canonical := Trunk(sorted);
    }
  }

  lemma FreshVlan(ids: seq<nat>, i: nat)
    requires i < |ids| && Unique(ids[..i], VlanKey)
    requires forall id :: id in ids[..i + 1] ==> VlanIdOk(id)
    requires ids[i] !in ids[..i]
    ensures Unique(ids[..i + 1], VlanKey)
  {
    var t := ids[..i + 1];
    forall a, b | 0 <= a < b < |t| ensures VlanKey(t[a]) != VlanKey(t[b]) {
      assert t[a] in t && t[b] in t;
      if b < i {
        assert t[a] == ids[..i][a] && t[b] == ids[..i][b];
      } else {
        assert t[a] in ids[..i] && VlanIdOk(t[a]) && VlanIdOk(t[b]);
        assert VlanKey(t[a])[0] != VlanKey(t[b])[0];
      }
    }
  }

  /** One port of a node, and for a workload its interface in the contract. */
  method CheckPort(n: Node, name: string, p: Port) returns (ok: bool, canonical: Port)
    ensures ok <==> Identifier(name) && PortOk(n.kind, p) && InterfaceOk(n, name, p)
    ensures ok ==> canonical == CanonicalPort(p)
  {
    hide CanonicalVlan, VlanOk, Identifier;
    var medium, mtu := MediumOf(p), MtuOf(p);
    ok, canonical := false, Port(p.role, Some(medium), Some(mtu), None);
    if !Identifier(name) || (n.kind.Switch? && !p.role.Data?) || medium != ETHERNET || mtu < 576 || mtu > 9216 {
      return;
    }
    match p.vlan {
      case Some(vlan) =>
        if !n.kind.Switch? {
          return;
        }
        var sorted;
        ok, sorted := CheckVlan(vlan);
        canonical := canonical.(vlan := Some(sorted));
      case None =>
        ok := !n.kind.Switch?;
    }
    if ok && n.workload.Resolved? {
      var interfaces := n.workload.contract.interfaces;
      if name !in interfaces {
        return false, canonical;
      }
      var spec := interfaces[name];
      ok := spec.role == p.role && spec.medium == medium && mtu >= spec.lowest && mtu <= spec.highest;
    }
  }

  /** All ports of a node. */
  method CheckPorts(n: Node) returns (ok: bool, ports: map<string, Port>)
    ensures ok <==> forall name :: name in n.ports ==>
      Identifier(name) && PortOk(n.kind, n.ports[name]) && InterfaceOk(n, name, n.ports[name])
    ensures ok ==> ports == map name | name in n.ports :: CanonicalPort(n.ports[name])
  {
    hide Identifier, PortOk, InterfaceOk, CanonicalPort;
    ok, ports := true, map[];
    var rest := n.ports.Keys;
    while rest != {}
      invariant rest <= n.ports.Keys && ports.Keys == n.ports.Keys - rest
      invariant ok <==> forall name :: name in n.ports.Keys - rest ==>
        Identifier(name) && PortOk(n.kind, n.ports[name]) && InterfaceOk(n, name, n.ports[name])
      invariant ok ==> forall name :: name in ports ==> ports[name] == CanonicalPort(n.ports[name])
      decreases rest
    {
      var name :| name in rest;
      var fits, port := CheckPort(n, name, n.ports[name]);
      ok := ok && fits;
      ports := ports[name := port];
      rest := rest - {name};
    }
  }

  /** The contract's required interfaces. */
  method CheckRequired(n: Node) returns (ok: bool)
    ensures ok <==> RequiredOk(n)
  {
    ok := true;
    if n.workload.Resolved? {
      var interfaces := n.workload.contract.interfaces;
      var rest := interfaces.Keys;
      while rest != {}
        invariant rest <= interfaces.Keys
        invariant ok <==> forall name :: name in interfaces.Keys - rest && interfaces[name].required ==> name in n.ports
        decreases rest
      {
        var name :| name in rest;
        if interfaces[name].required && name !in n.ports {
          ok := false;
        }
        rest := rest - {name};
      }
    }
  }

  /** The addresses of a node. */
  method CheckAddresses(n: Node) returns (ok: bool)
    ensures ok <==> AddressesOk(n)
  {
    ok := true;
    if n.addresses.Some? {
      var addresses := n.addresses.value;
      var rest := addresses.Keys;
      while rest != {}
        invariant rest <= addresses.Keys
        invariant ok <==> forall name :: name in addresses.Keys - rest ==> name in n.ports && n.ports[name].role.Data?
        decreases rest
      {
        var name :| name in rest;
        if name !in n.ports || !n.ports[name].role.Data? {
          ok := false;
        }
        rest := rest - {name};
      }
    }
  }

  method CheckNode(n: Node) returns (ok: bool, canonical: Node)
    ensures ok <==> NodeOk(n)
    ensures ok ==> canonical == CanonicalNode(n)
  {
    hide Identifier, PortOk, InterfaceOk, RequiredOk, AddressesOk, CanonicalPort;
    ok, canonical := false, n;
    if n.kind.Switch? {
      if !n.workload.NoWorkload? || n.addresses.Some? || n.policy.None? || !SwitchPolicyOk(n.policy.value) {
        return;
      }
    } else if n.policy.Some? || !n.workload.Resolved? || n.workload.contract.kind != n.kind {
      return;
    }
    var fit, ports := CheckPorts(n);
    var complete := CheckRequired(n);
    var placed := CheckAddresses(n);
    ok, canonical := fit && complete && placed, n.(ports := ports);
  }

  method CheckNodes(nodes: map<string, Node>) returns (ok: bool, canonical: map<string, Node>)
    ensures ok <==> NodesOk(nodes)
    ensures ok ==> canonical == CanonicalNodes(nodes)
  {
    hide Identifier, NodeOk, CanonicalNode;
    ok, canonical := true, map[];
    var rest := nodes.Keys;
    while rest != {}
      invariant rest <= nodes.Keys && canonical.Keys == nodes.Keys - rest
      invariant ok <==> forall name :: name in nodes.Keys - rest ==> Identifier(name) && NodeOk(nodes[name])
      invariant ok ==> forall name :: name in canonical ==> canonical[name] == CanonicalNode(nodes[name])
      decreases rest
    {
      var name :| name in rest;
      var fits, node := CheckNode(nodes[name]);
      ok := ok && Identifier(name) && fits;
      canonical := canonical[name := node];
      rest := rest - {name};
    }
  }

  // ----- edges -----

  /** The identifiers and endpoints of the edges seen so far. */
  ghost predicate Tracks(edges: seq<Edge>, ids: set<string>, used: set<string>) {
    ids == EdgeIds(edges) && used == (set e | e in edges :: e.first) + (set e | e in edges :: e.second)
  }

  lemma FreeIsApart(edges: seq<Edge>, ids: set<string>, used: set<string>, e: Edge)
    requires Tracks(edges, ids, used)
    ensures e.id !in ids && e.first !in used && e.second !in used <==>
      forall f :: f in edges ==> EdgesApart(f, e)
  {
    if e.id !in ids && e.first !in used && e.second !in used {
      forall f | f in edges ensures EdgesApart(f, e) {
        assert f.id in ids && f.first in used && f.second in used;
      }
    }
  }

  lemma TracksStep(edges: seq<Edge>, ids: set<string>, used: set<string>, e: Edge)
    requires Tracks(edges, ids, used)
    ensures Tracks(edges + [e], ids + {e.id}, used + {e.first, e.second})
  {
    assert forall f :: f in edges + [e] <==> f in edges || f == e;
  }

  lemma EdgesStep(nodes: map<string, Node>, policy: Policy, edges: seq<Edge>, e: Edge)
    requires EdgesOk(nodes, policy, edges)
    ensures EdgesOk(nodes, policy, edges + [e]) <==>
      EdgeOk(nodes, policy, e) && forall f :: f in edges ==> EdgesApart(f, e)
  {
    hide EdgeOk, EdgesApart;
    var more := edges + [e];
    if EdgesOk(nodes, policy, more) {
      assert more[|edges|] == e && e in more;
      forall f | f in edges ensures EdgesApart(f, e) {
        var i :| 0 <= i < |edges| && edges[i] == f;
        assert EdgesApart(more[i], more[|edges|]);
      }
    }
  }

  lemma EdgesPrefix(nodes: map<string, Node>, policy: Policy, edges: seq<Edge>, i: nat)
    requires i <= |edges| && EdgesOk(nodes, policy, edges)
    ensures EdgesOk(nodes, policy, edges[..i])
  {
    hide EdgeOk, EdgesApart;
  }

  method CheckEdges(nodes: map<string, Node>, policy: Policy, edges: seq<Edge>)
    returns (ok: bool, ids: set<string>, used: set<string>)
    ensures ok <==> EdgesOk(nodes, policy, edges)
    ensures ok ==> Tracks(edges, ids, used)
  {
    hide EdgesOk, Tracks, Endpoint;
    ok, ids, used := true, {}, {};
    NoEdges(nodes, policy);
    for i := 0 to |edges|
      invariant EdgesOk(nodes, policy, edges[..i]) && Tracks(edges[..i], ids, used)
    {
      var e := edges[i];
      assert edges[..i + 1] == edges[..i] + [e];
      EdgesStep(nodes, policy, edges[..i], e);
      FreeIsApart(edges[..i], ids, used, e);
      var first, second := Endpoint(nodes, e.first), Endpoint(nodes, e.second);
      ok := Identifier(e.id) && e.id !in ids && first.Some? && second.Some?
        && e.first !in used && e.second !in used && e.first != e.second;
      if ok {
        var a, b := first.value, second.value;
        EndpointNode(nodes, e.first);
        var kind := nodes[NodeOf(e.first)].kind;
        ok := a.role.Data? && b.role.Data? && MediumOf(a) == MediumOf(b) && MtuOf(a) == MtuOf(b)
          && !(NodeOf(e.first) == NodeOf(e.second) && (!kind.Switch? || !policy.Unprotected?));
      }
      if !ok {
        if EdgesOk(nodes, policy, edges) {
          EdgesPrefix(nodes, policy, edges, i + 1);
        }
        return;
      }
      TracksStep(edges[..i], ids, used, e);
      ids, used := ids + {e.id}, used + {e.first, e.second};
    }
    assert edges[..|edges|] == edges;
    ok := true;
  }

  lemma NoEdges(nodes: map<string, Node>, policy: Policy)
    ensures EdgesOk(nodes, policy, []) && Tracks([], {}, {})
  {
  }

  lemma EndpointNode(nodes: map<string, Node>, e: string)
    requires Endpoint(nodes, e).Some?
    ensures NodeOf(e) in nodes
  {
  }

  // ----- application flows -----

  /** One flow's network edges, as an ordered set. */
  method CheckReferences(ids: set<string>, refs: seq<string>) returns (ok: bool)
    ensures ok <==> (forall link :: link in refs ==> link in ids) && Unique(refs, Self)
  {
    var links: set<string> := {};
    for i := 0 to |refs|
      invariant links == set link | link in refs[..i]
      invariant forall link :: link in refs[..i] ==> link in ids
      invariant Unique(refs[..i], Self)
    {
      var link := refs[i];
      assert refs[..i + 1] == refs[..i] + [link];
      if link !in ids {
        return false;
      }
      if link in links {
        var j :| 0 <= j < i && refs[j] == link;
        assert Self(refs[j]) == Self(refs[i]);
        return false;
      }
      links := links + {link};
    }
    assert refs[..|refs|] == refs;
    ok := true;
  }

  method CheckFlow(nodes: map<string, Node>, ids: set<string>, f: Flow) returns (ok: bool)
    ensures ok <==> FlowOk(nodes, ids, f)
  {
    if !Identifier(f.id) || !WorkloadNode(nodes, f.source) || !WorkloadNode(nodes, f.target) || |f.networkEdges| > 256
       || (f.protocol.Some? && !ProtocolOk(f.protocol.value)) {
      return false;
    }
    ok := CheckReferences(ids, f.networkEdges);
  }

  method CheckFlows(nodes: map<string, Node>, ids: set<string>, flows: seq<Flow>)
    returns (ok: bool, normalized: seq<Flow>)
    ensures ok <==> FlowsOk(nodes, ids, flows)
    ensures ok ==> normalized == Normalized(flows)
  {
    hide FlowOk, CanonicalFlow;
    normalized := [];
    if |flows| > 1024 {
      return false, normalized;
    }
    var seen: set<string> := {};
    for i := 0 to |flows|
      invariant seen == set f | f in flows[..i] :: f.id
      invariant forall f :: f in flows[..i] ==> FlowOk(nodes, ids, f)
      invariant Unique(flows[..i], FlowKey)
      invariant normalized == Normalized(flows[..i])
    {
      var f := flows[i];
      assert flows[..i + 1] == flows[..i] + [f];
      var fits := CheckFlow(nodes, ids, f);
      if !fits {
        assert f in flows;
        return false, normalized;
      }
      if f.id in seen {
        var j :| 0 <= j < i && flows[j].id == f.id;
        assert FlowKey(flows[j]) == FlowKey(flows[i]);
        return false, normalized;
      }
      var links := SortedReferences(nodes, ids, f);
      seen := seen + {f.id};
      normalized := normalized + [f.(networkEdges := links)];
    }
    assert flows[..|flows|] == flows;
    ok := true;
  }

  method SortedReferences(nodes: map<string, Node>, ids: set<string>, f: Flow) returns (links: seq<string>)
    requires FlowOk(nodes, ids, f)
    ensures f.(networkEdges := links) == CanonicalFlow(f)
  {
    links := Sort(f.networkEdges, Self);
    UniqueReordered(f.networkEdges, links, Self);
    SortIsArrange(f.networkEdges, links, Self);
  }

  // ----- management ports -----

  /** With colon-free names, an endpoint denotes the port it spells out. */
  lemma EndpointSpells(nodes: map<string, Node>, e: string)
    requires NodesOk(nodes)
    ensures Endpoint(nodes, e).Some? && Endpoint(nodes, e).value.role.Management? <==> e in ManagementPorts(nodes)
  {
    hide NodeOk;
    if Endpoint(nodes, e).Some? {
      var c := Colon(e, 0);
      assert e == e[..c] + ":" + e[c + 1..];
    }
    if node, port :| node in nodes && port in nodes[node].ports && e == node + ":" + port
                     && nodes[node].ports[port].role.Management? {
      Spelled(nodes, node, port);
    }
  }

  lemma Spelled(nodes: map<string, Node>, node: string, port: string)
    requires NodesOk(nodes) && node in nodes && port in nodes[node].ports
    ensures Endpoint(nodes, node + ":" + port) == Some(nodes[node].ports[port])
  {
    var e := node + ":" + port;
    NoColon(node);
    assert NodeOk(nodes[node]);
    NoColon(port);
    var c := Colon(e, 0);
    assert forall i :: 0 <= i < |node| ==> e[i] == node[i];
    assert forall i :: |node| < i < |e| ==> e[i] == port[i - |node| - 1];
    assert e[|node|] == ':' && forall i :: 0 <= i < c ==> e[i] in e[0..c];
    assert e[..|node|] == node && e[|node| + 1..] == port;
  }

  lemma NoColon(s: string)
    requires Identifier(s)
    ensures forall i :: 0 <= i < |s| ==> s[i] != ':'
  {
  }

  // ----- the whole validator -----

  /** Everything before the nodes. */
  method CheckHeading(t: Document) returns (ok: bool)
    ensures ok <==> HeadingOk(t.heading) && LimitsOk(t) && FeaturesOf(t) == []
  {
    var l := LimitsOf(t);
    ok := HeadingOk(t.heading) && FeaturesOf(t) == [] && l.maxNodes >= 1 && l.maxNodes <= 10000 && l.maxEdges <= 100000
      && |t.nodes| <= l.maxNodes && |t.edges| <= l.maxEdges;
  }

  /** The loop rule on the document's edges. */
  method CheckLoopRule(t: Document) returns (ok: bool)
    requires EdgesOk(t.nodes, PolicyOf(t), t.edges)
    ensures ok <==> (PolicyOf(t).Rstp? ==> LoopPolicy.LoopsProtected(LoopNodes(t.nodes), LinksOf(t.edges)))
  {
    hide LoopPolicy.LoopsProtected, NodeOf, Endpoint;
    var links := seq(|t.edges|, i requires 0 <= i < |t.edges| => LinkOf(t.edges[i]));
    LinksListed(t, links);
    ok := LoopPolicy.CheckLoops(LoopNodes(t.nodes), links, PolicyOf(t).Rstp?);
  }

  lemma LinksListed(t: Document, links: seq<LoopPolicy.Link>)
    requires EdgesOk(t.nodes, PolicyOf(t), t.edges)
    requires links == seq(|t.edges|, i requires 0 <= i < |t.edges| => LinkOf(t.edges[i]))
    ensures LoopPolicy.Declared(LoopNodes(t.nodes), links) && LoopPolicy.Distinct(links)
    ensures LoopPolicy.Links(links) == LinksOf(t.edges)
  {
    hide NodeOf, Endpoint;
    forall l | l in links ensures l.a in LoopNodes(t.nodes) && l.b in LoopNodes(t.nodes) && l in LinksOf(t.edges) {
      var i :| 0 <= i < |links| && links[i] == l;
      assert EdgeOk(t.nodes, PolicyOf(t), t.edges[i]);
      EndpointNode(t.nodes, t.edges[i].first);
      EndpointNode(t.nodes, t.edges[i].second);
    }
    forall i, j | 0 <= i < j < |links| ensures links[i] != links[j] {
      assert EdgesApart(t.edges[i], t.edges[j]);
    }
    forall e | e in t.edges ensures LinkOf(e) in links {
      var i :| 0 <= i < |t.edges| && t.edges[i] == e;
      assert links[i] == LinkOf(e);
    }
  }

  /** Networks, then attachments against the ports the edges left free. */
  method CheckManagement(t: Document, used: set<string>) returns (ok: bool)
    requires NodesOk(t.nodes) && EdgesOk(t.nodes, PolicyOf(t), t.edges) && Tracks(t.edges, EdgeIds(t.edges), used)
    ensures ok <==> NetworksOk(t.networks)
                    && AddressPlan.AttachmentsOk(t.networks, ManagementPorts(t.nodes), AttachmentsOf(t))
  {
    hide Identifier, AddressPlan.NetworksOk, AddressPlan.AttachmentsOk, NodesOk, EdgesOk, Tracks, ManagementPorts;
    var named := forall name :: name in t.networks ==> Identifier(name);
    var apart, subnets, pools, given := AddressPlan.CheckNetworks(t.networks);
    if !named || !apart {
      return false;
    }
    DataPortsUsed(t, used);
    ok := AddressPlan.CheckAttachments(t.networks, given, ManagementPorts(t.nodes), used, AttachmentsOf(t));
  }

  lemma DataPortsUsed(t: Document, used: set<string>)
    requires NodesOk(t.nodes) && EdgesOk(t.nodes, PolicyOf(t), t.edges) && Tracks(t.edges, EdgeIds(t.edges), used)
    ensures used !! ManagementPorts(t.nodes)
  {
    hide NodesOk, Endpoint, ManagementPorts;
    forall x | x in used ensures x !in ManagementPorts(t.nodes) {
      var e :| e in t.edges && (e.first == x || e.second == x);
      assert EdgeOk(t.nodes, PolicyOf(t), e);
      EndpointSpells(t.nodes, x);
    }
  }

  /** The validator: accepts exactly the acceptable documents, and returns the canonical
      form of those it accepts. */
  method Validate(t: Document) returns (r: Option<Document>)
    ensures r == if Accepted(t) then Some(Canonical(t)) else None
  {
    hide NodesOk, EdgesOk, FlowsOk, Tracks, LoopPolicy.LoopsProtected, NetworksOk, AddressPlan.AttachmentsOk,
      ManagementPorts, LimitsOk, HeadingOk, CanonicalNodes, Normalized;
    var ok := CheckHeading(t);
    if !ok {
      return None;
    }
    var nodes;
    ok, nodes := CheckNodes(t.nodes);
    if !ok {
      return None;
    }
    var ids, used;
    ok, ids, used := CheckEdges(t.nodes, PolicyOf(t), t.edges);
    if !ok {
      return None;
    }
    TracksIds(t.edges, ids, used);
    var application: Option<seq<Flow>> := None;
    if t.application.Some? {
      var normalized;
      ok, normalized := CheckFlows(t.nodes, ids, t.application.value);
      if !ok {
        return None;
      }
      var flows := SortFlows(t.nodes, ids, t.application.value, normalized);
      application := Some(flows);
    }
    ok := CheckLoopRule(t);
    if !ok {
      return None;
    }
    ok := CheckManagement(t, used);
    if !ok {
      return None;
    }
    var edges := SortEdges(t.nodes, PolicyOf(t), t.edges);
    var attachments := SortAttachments(t.networks, ManagementPorts(t.nodes), AttachmentsOf(t));
    r := Some(Document(t.heading, Some(LimitsOf(t)), Some(PolicyOf(t)), Some([]), nodes, edges, application,
                       t.networks, Some(attachments)));
  }

  lemma TracksIds(edges: seq<Edge>, ids: set<string>, used: set<string>)
    requires Tracks(edges, ids, used)
    ensures ids == EdgeIds(edges)
  {
  }

  method SortEdges(nodes: map<string, Node>, policy: Policy, edges: seq<Edge>) returns (r: seq<Edge>)
    requires EdgesOk(nodes, policy, edges)
    ensures r == Arrange(edges, EdgeKey)
  {
    r := Sort(edges, EdgeKey);
    UniqueReordered(edges, r, EdgeKey);
    SortIsArrange(edges, r, EdgeKey);
  }

  method SortFlows(nodes: map<string, Node>, ids: set<string>, flows: seq<Flow>, normalized: seq<Flow>)
    returns (r: seq<Flow>)
    requires FlowsOk(nodes, ids, flows) && normalized == Normalized(flows)
    ensures r == CanonicalFlows(flows)
  {
    r := Sort(normalized, FlowKey);
    assert Unique(normalized, FlowKey) by {
      forall i, j | 0 <= i < j < |normalized| ensures FlowKey(normalized[i]) != FlowKey(normalized[j]) {
        assert FlowKey(flows[i]) != FlowKey(flows[j]);
      }
    }
    UniqueReordered(normalized, r, FlowKey);
    SortIsArrange(normalized, r, FlowKey);
  }

  method SortAttachments(nets: map<string, AddressPlan.Network>, ports: set<string>, atts: seq<AddressPlan.Attachment>)
    returns (r: seq<AddressPlan.Attachment>)
    requires AddressPlan.AttachmentsOk(nets, ports, atts)
    ensures r == Arrange(atts, AttachmentKey)
  {
    hide AddressPlan.AttachmentOk;
    r := Sort(atts, AttachmentKey);
    UniqueReordered(atts, r, AttachmentKey);
    SortIsArrange(atts, r, AttachmentKey);
  }
}
