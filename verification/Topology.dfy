/** Topologies, the rules that relate their parts, and their canonical form. */
module Topology {
  import opened Options
  import opened Ordering
  import AddressPlan
  import LoopPolicy

  // ----- documents -----

  datatype Kind = Docker | Qemu | Switch

  datatype Role = Data | Management

  datatype Vlan = Access(id: nat) | Trunk(ids: seq<nat>)

  datatype Port = Port(role: Role, medium: Option<string>, mtu: Option<nat>, vlan: Option<Vlan>)

  datatype SwitchPolicy = SwitchPolicy(forwarding: string, rstp: bool, priority: nat)

  datatype Interface = Interface(role: Role, medium: string, required: bool, lowest: nat, highest: nat)

  /** A workload's contract: the kind of node it runs on and its interfaces with their MTU range. */
  datatype Contract = Contract(kind: Kind, interfaces: map<string, Interface>)

  /** A node's workload field, resolved against the artifact lock. */
  datatype Workload = NoWorkload | Unresolved | Resolved(contract: Contract)

  datatype Node = Node(kind: Kind, policy: Option<SwitchPolicy>, workload: Workload, ports: map<string, Port>,
                       addresses: Option<map<string, AddressPlan.Cidr>>)

  datatype Edge = Edge(id: string, first: string, second: string)

  /** `known` tells that the declaration has the supported version. */
  datatype Protocol = Protocol(known: bool, transport: string, framing: string, schema: string)

  datatype Flow = Flow(id: string, source: string, target: string, protocol: Option<Protocol>, networkEdges: seq<string>)

  datatype Limits = Limits(maxNodes: nat, maxEdges: nat)

  datatype Policy = Rstp | Unprotected

  datatype CapturePolicy = CapturePolicy(required: bool, scope: string, format: string)

  /** The fixed part of a document. `artifactLock` is the digest it names, `lockDigest` that of the
      lock it is resolved against. */
  datatype Heading = Heading(apiVersion: string, id: string, artifactLock: string, lockDigest: string,
                             backend: string, switchIsolation: string, capture: CapturePolicy)

  datatype Document = Document(
    heading: Heading,
    limits: Option<Limits>,
    loopPolicy: Option<Policy>,
    requiredFeatures: Option<seq<string>>,
    nodes: map<string, Node>,
    edges: seq<Edge>,
    application: Option<seq<Flow>>,
    networks: map<string, AddressPlan.Network>,
    attachments: Option<seq<AddressPlan.Attachment>>)

  // ----- defaults -----

  function Or<T>(o: Option<T>, d: T): T {
    match o
    case Some(v) => v
    case None => d
  }

  const DEFAULT_LIMITS := Limits(1024, 8192)
  const ETHERNET := "ethernet"

  function LimitsOf(t: Document): Limits { Or(t.limits, DEFAULT_LIMITS) }
  function PolicyOf(t: Document): Policy { Or(t.loopPolicy, Rstp) }
  function FeaturesOf(t: Document): seq<string> { Or(t.requiredFeatures, []) }
  function AttachmentsOf(t: Document): seq<AddressPlan.Attachment> { Or(t.attachments, []) }
  function MediumOf(p: Port): string { Or(p.medium, ETHERNET) }
  function MtuOf(p: Port): nat { Or(p.mtu, 1500) }

  // ----- names and endpoints -----

  predicate Letter(c: char) { 'A' <= c <= 'Z' || 'a' <= c <= 'z' }

  /** A letter followed by at most 63 letters, digits, underscores and hyphens. */
  predicate Identifier(s: string) {
    && 1 <= |s| <= 64 && Letter(s[0])
    && (forall i :: 0 <= i < |s| ==> Letter(s[i]) || '0' <= s[i] <= '9' || s[i] == '_' || s[i] == '-')
  }

  /** The first colon at or after `i`, or the length. */
  function Colon(s: string, i: nat): (k: nat)
    requires i <= |s|
    ensures i <= k <= |s| && (k < |s| ==> s[k] == ':') && ':' !in s[i..k]
    decreases |s| - i
  {
    if i == |s| then i
    else if s[i] == ':' then i
    else
      var k := Colon(s, i + 1);
      assert s[i..k] == [s[i]] + s[i + 1..k];
      k
  }

  /** The node part of an endpoint. */
  function NodeOf(e: string): string {
    e[..Colon(e, 0)]
  }

  /** The port an endpoint `node:port` denotes, if it is declared. */
  function Endpoint(nodes: map<string, Node>, e: string): Option<Port> {
    var c := Colon(e, 0);
    if c == |e| || Colon(e, c + 1) != |e| then None
    else
      var node, port := e[..c], e[c + 1..];
      if node in nodes && port in nodes[node].ports then Some(nodes[node].ports[port]) else None
  }

  // ----- acceptance -----

  predicate HeadingOk(h: Heading) {
    && h.apiVersion == "graphlab.topology/v2" && Identifier(h.id) && h.artifactLock == h.lockDigest
    && h.backend == "linux-local" && h.switchIsolation == "shared-ovs"
    && h.capture.scope == "all-data-edges" && h.capture.format == "pcapng"
  }

  predicate LimitsOk(t: Document) {
    var l := LimitsOf(t);
    1 <= l.maxNodes <= 10000 && l.maxEdges <= 100000 && |t.nodes| <= l.maxNodes && |t.edges| <= l.maxEdges
  }

  predicate VlanIdOk(v: nat) { 1 <= v <= 4094 }

  ghost predicate VlanOk(v: Vlan) {
    match v
    case Access(id) => VlanIdOk(id)
    case Trunk(ids) => ids != [] && (forall id :: id in ids ==> VlanIdOk(id)) && Unique(ids, VlanKey)
  }

  /** VLAN numbers as keys: one character each, ordered by number. */
  function VlanKey(v: nat): string {
    if v <= 4094 then [v as char] else []
  }

  ghost predicate PortOk(kind: Kind, p: Port) {
    && MediumOf(p) == ETHERNET
    && 576 <= MtuOf(p) <= 9216
    && (kind.Switch? ==> p.role.Data? && p.vlan.Some? && VlanOk(p.vlan.value))
    && (!kind.Switch? ==> p.vlan.None?)
  }

  /** A port of a workload is one that its contract declares. */
  predicate InterfaceOk(n: Node, name: string, p: Port) {
    n.workload.Resolved? ==>
      var declared := n.workload.contract.interfaces;
      && name in declared && declared[name].role == p.role && declared[name].medium == MediumOf(p)
      && declared[name].lowest <= MtuOf(p) <= declared[name].highest
  }

  predicate SwitchPolicyOk(p: SwitchPolicy) {
    p.forwarding == "normal" && p.priority <= 61440 && p.priority % 4096 == 0
  }

  /** A switch has its policy and neither workload nor addresses; a workload node has a contract
      of its kind and no policy. */
  predicate ShapeOk(n: Node) {
    if n.kind.Switch? then
      n.workload.NoWorkload? && n.addresses.None? && n.policy.Some? && SwitchPolicyOk(n.policy.value)
    else
      n.policy.None? && n.workload.Resolved? && n.workload.contract.kind == n.kind
  }

  /** Every interface that the contract requires is there. */
  ghost predicate RequiredOk(n: Node) {
    n.workload.Resolved? ==>
      forall name :: name in n.workload.contract.interfaces && n.workload.contract.interfaces[name].required ==>
        name in n.ports
  }

  /** Addresses belong to data ports. */
  ghost predicate AddressesOk(n: Node) {
    n.addresses.Some? ==> forall name :: name in n.addresses.value ==> name in n.ports && n.ports[name].role.Data?
  }

  ghost predicate NodeOk(n: Node) {
    && ShapeOk(n) && RequiredOk(n) && AddressesOk(n)
    && (forall name :: name in n.ports ==>
          Identifier(name) && PortOk(n.kind, n.ports[name]) && InterfaceOk(n, name, n.ports[name]))
  }

  ghost predicate NodesOk(nodes: map<string, Node>) {
    forall name :: name in nodes ==> Identifier(name) && NodeOk(nodes[name])
  }

  /** A data edge joins two declared data ports with equal medium and MTU; a self-link needs
      a switch and the unprotected policy. */
  predicate EdgeOk(nodes: map<string, Node>, policy: Policy, e: Edge) {
    var a, b := Endpoint(nodes, e.first), Endpoint(nodes, e.second);
    && Identifier(e.id)
    && a.Some? && b.Some? && e.first != e.second
    && a.value.role.Data? && b.value.role.Data?
    && MediumOf(a.value) == MediumOf(b.value) && MtuOf(a.value) == MtuOf(b.value)
    && (NodeOf(e.first) == NodeOf(e.second) ==>
          NodeOf(e.first) in nodes && nodes[NodeOf(e.first)].kind.Switch? && policy.Unprotected?)
  }

  predicate EdgesApart(e: Edge, f: Edge) {
    e.id != f.id && e.first != f.first && e.first != f.second && e.second != f.first && e.second != f.second
  }

  ghost predicate EdgesOk(nodes: map<string, Node>, policy: Policy, edges: seq<Edge>) {
    (forall e :: e in edges ==> EdgeOk(nodes, policy, e)) && Pairwise(edges, EdgesApart)
  }

  predicate WorkloadNode(nodes: map<string, Node>, name: string) {
    name in nodes && !nodes[name].kind.Switch?
  }

  function EdgeKey(e: Edge): string { e.id }
  function FlowKey(f: Flow): string { f.id }
  function AttachmentKey(a: AddressPlan.Attachment): string { a.endpoint }
  function Self(s: string): string { s }

  predicate Alphanumeric(c: char) { Letter(c) || '0' <= c <= '9' }

  /** At most 128 letters, digits and punctuation of names and paths, a letter or digit first. */
  predicate DeclarationOk(s: string) {
    && 1 <= |s| <= 128 && Alphanumeric(s[0])
    && (forall i :: 0 <= i < |s| ==> Alphanumeric(s[i]) || s[i] in {'.', '_', ':', '/', '-'})
  }

  predicate ProtocolOk(p: Protocol) {
    p.known && DeclarationOk(p.transport) && DeclarationOk(p.framing) && DeclarationOk(p.schema)
  }

  /** An application flow joins workload nodes over known data edges, each named once. */
  ghost predicate FlowOk(nodes: map<string, Node>, ids: set<string>, f: Flow) {
    && Identifier(f.id) && (f.protocol.Some? ==> ProtocolOk(f.protocol.value))
    && WorkloadNode(nodes, f.source) && WorkloadNode(nodes, f.target)
    && |f.networkEdges| <= 256
    && (forall link :: link in f.networkEdges ==> link in ids) && Unique(f.networkEdges, Self)
  }

  ghost predicate FlowsOk(nodes: map<string, Node>, ids: set<string>, flows: seq<Flow>) {
    |flows| <= 1024 && (forall f :: f in flows ==> FlowOk(nodes, ids, f)) && Unique(flows, FlowKey)
  }

  function EdgeIds(edges: seq<Edge>): set<string> {
    set e | e in edges :: e.id
  }

  function LinkOf(e: Edge): LoopPolicy.Link {
    LoopPolicy.Link(e.id, NodeOf(e.first), NodeOf(e.second))
  }

  function LinksOf(edges: seq<Edge>): set<LoopPolicy.Link> {
    set e | e in edges :: LinkOf(e)
  }

  function LoopNode(n: Node): LoopPolicy.Node {
    if n.kind.Switch? then LoopPolicy.Switch(n.policy.Some? && n.policy.value.rstp) else LoopPolicy.Workload
  }

  function LoopNodes(nodes: map<string, Node>): map<string, LoopPolicy.Node> {
    map name | name in nodes :: LoopNode(nodes[name])
  }

  /** The endpoints that denote management ports. */
  function ManagementPorts(nodes: map<string, Node>): set<string> {
    set node, port | node in nodes && port in nodes[node].ports && nodes[node].ports[port].role.Management?
      :: node + ":" + port
  }

  ghost predicate NetworksOk(nets: map<string, AddressPlan.Network>) {
    (forall name :: name in nets ==> Identifier(name)) && AddressPlan.NetworksOk(nets, nets.Keys)
  }

  /** What the validator accepts. */
  ghost predicate Accepted(t: Document) {
    && HeadingOk(t.heading) && LimitsOk(t) && FeaturesOf(t) == []
    && NodesOk(t.nodes)
    && EdgesOk(t.nodes, PolicyOf(t), t.edges)
    && (t.application.Some? ==> FlowsOk(t.nodes, EdgeIds(t.edges), t.application.value))
    && (PolicyOf(t).Rstp? ==> LoopPolicy.LoopsProtected(LoopNodes(t.nodes), LinksOf(t.edges)))
    && NetworksOk(t.networks)
    && AddressPlan.AttachmentsOk(t.networks, ManagementPorts(t.nodes), AttachmentsOf(t))
  }

  // ----- the canonical form -----

  function CanonicalVlan(v: Vlan): Vlan {
    match v
    case Access(_) => v
    case Trunk(ids) => Trunk(Arrange(ids, VlanKey))
  }

  function CanonicalPort(p: Port): Port {
    Port(p.role, Some(MediumOf(p)), Some(MtuOf(p)),
         if p.vlan.Some? then Some(CanonicalVlan(p.vlan.value)) else None)
  }

  function CanonicalNode(n: Node): Node {
    n.(ports := map name | name in n.ports :: CanonicalPort(n.ports[name]))
  }

  function CanonicalNodes(nodes: map<string, Node>): map<string, Node> {
    map name | name in nodes :: CanonicalNode(nodes[name])
  }

  function CanonicalFlow(f: Flow): Flow {
    f.(networkEdges := Arrange(f.networkEdges, Self))
  }

  function CanonicalFlows(flows: seq<Flow>): seq<Flow> {
    Arrange(Normalized(flows), FlowKey)
  }

  function Normalized(flows: seq<Flow>): seq<Flow> {
    seq(|flows|, i requires 0 <= i < |flows| => CanonicalFlow(flows[i]))
  }

  /** Defaults made explicit and every unordered list sorted. */
  function Canonical(t: Document): Document {
    Document(
      t.heading, Some(LimitsOf(t)), Some(PolicyOf(t)), Some([]),
      CanonicalNodes(t.nodes),
      Arrange(t.edges, EdgeKey),
      if t.application.Some? then Some(CanonicalFlows(t.application.value)) else None,
      t.networks,
      Some(Arrange(AttachmentsOf(t), AttachmentKey)))
  }
}
