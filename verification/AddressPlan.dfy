/** Management address planning: IPv4 blocks, the containment test on masks, and
    the allocation rules for networks and attachments. */
module AddressPlan {

  // ----- 32-bit words -----

  function Pow2(n: nat): (r: nat)
    ensures r > 0
  {
    if n == 0 then 1 else 2 * Pow2(n - 1)
  }

  /** Bitwise conjunction. */
  function And(x: nat, y: nat): nat {
    if x == 0 || y == 0 then 0
    else 2 * And(x / 2, y / 2) + (if x % 2 == 1 && y % 2 == 1 then 1 else 0)
  }

  /** Bitwise disjunction. */
  function Or(x: nat, y: nat): nat
    decreases x + y
  {
    if x == 0 then y else if y == 0 then x
    else 2 * Or(x / 2, y / 2) + (if x % 2 == 1 || y % 2 == 1 then 1 else 0)
  }

  type Word = x: nat | x < 0x1_0000_0000

  /** Bitwise complement of a 32-bit word. */
  function Not(x: Word): Word {
    0xffff_ffff - x
  }

  // ----- blocks -----

  datatype Block = Block(ip: Word, prefix: nat)

  /** Parsing rejects prefixes above 32. */
  type Cidr = b: Block | b.prefix <= 32 witness Block(0, 0)

  /** All ones shifted left by the number of host bits, truncated to 32 bits. */
  function Mask(prefix: nat): Word
    requires prefix <= 32
  {
    if prefix == 0 then 0 else Width(32 - prefix); 0x1_0000_0000 - Pow2(32 - prefix)
  }

  /** The test the validator uses: `a`'s address agrees with `b` under `b`'s mask. */
  predicate Inside(a: Cidr, b: Cidr) {
    And(a.ip, Mask(b.prefix)) == And(b.ip, Mask(b.prefix))
  }

  function First(c: Cidr): nat {
    And(c.ip, Mask(c.prefix))
  }

  function Last(c: Cidr): nat {
    Or(First(c), Not(Mask(c.prefix)))
  }

  /** `x` is one of the block's addresses. */
  predicate Holds(c: Cidr, x: nat) {
    First(c) <= x <= Last(c)
  }

  // ----- words by halving -----

  lemma {:induction false} Width(h: nat)
    requires h <= 32
    ensures Pow2(h) * Pow2(32 - h) == 0x1_0000_0000 && 1 <= Pow2(h) <= 0x1_0000_0000
  {
    PowSum(h, 32 - h);
    assert Pow2(32) == 0x1_0000_0000 by { PowValue(); }
    AtMost(Pow2(h), Pow2(32 - h));
  }

  lemma AtMost(x: nat, y: nat)
    requires x >= 1 && y >= 1
    ensures x <= x * y
  {
  }

  lemma PowValue()
    ensures Pow2(32) == 0x1_0000_0000
  {
    assert Pow2(8) == 256;
    PowSum(8, 8);
    PowSum(16, 16);
  }

  lemma {:induction false} PowSum(m: nat, n: nat)
    ensures Pow2(m + n) == Pow2(m) * Pow2(n)
  {
    if m > 0 {
      PowSum(m - 1, n);
      assert Pow2(m + n) == 2 * Pow2(m - 1 + n);
    }
  }

  /** The word without its `h` low bits. */
  function Net(x: nat, h: nat): nat {
    if h == 0 then x else Net(x, h - 1) / 2
  }

  /** The smallest and the largest word with network part `q`. */
  function Base(q: nat, h: nat): nat
    decreases h
  {
    if h == 0 then q else Base(2 * q, h - 1)
  }

  function Top(q: nat, h: nat): nat
    decreases h
  {
    if h == 0 then q else Top(2 * q + 1, h - 1)
  }

  lemma {:induction false} NetHalves(x: nat, h: nat)
    ensures Net(x, h + 1) == Net(x / 2, h)
  {
    if h > 0 {
      NetHalves(x, h - 1);
    }
  }

  lemma {:induction false} Adjacent(q: nat, h: nat)
    ensures Base(q, h) <= Top(q, h) && Top(q, h) + 1 == Base(q + 1, h)
    decreases h
  {
    if h > 0 {
      Adjacent(2 * q, h - 1);
      Adjacent(2 * q + 1, h - 1);
    }
  }

  /** The words with a given network part are an interval. */
  lemma {:induction false} NetIsRange(x: nat, q: nat, h: nat)
    ensures Net(x, h) == q <==> Base(q, h) <= x <= Top(q, h)
    decreases h
  {
    if h > 0 {
      NetIsRange(x, 2 * q, h - 1);
      NetIsRange(x, 2 * q + 1, h - 1);
      Adjacent(2 * q, h - 1);
      Adjacent(2 * q + 1, h - 1);
    }
  }

  /** Words that agree on a network part agree on every shorter one. */
  lemma {:induction false} Coarser(x: nat, y: nat, h: nat, g: nat)
    requires h <= g && Net(x, h) == Net(y, h)
    ensures Net(x, g) == Net(y, g)
    decreases g
  {
    if h < g {
      Coarser(x, y, h, g - 1);
    }
  }

  // ----- masks keep the network part -----

  lemma {:induction false} AndHalves(x: nat, y: nat)
    ensures And(x, y) == 2 * And(x / 2, y / 2) + (if x % 2 == 1 && y % 2 == 1 then 1 else 0)
  {
  }

  /** Masking with `w - h` ones above `h` zeros clears the `h` low bits. */
  lemma {:induction false} AndMask(x: nat, w: nat, h: nat)
    requires h <= w && x < Pow2(w) && Pow2(h) <= Pow2(w)
    ensures And(x, Pow2(w) - Pow2(h)) == Base(Net(x, h), h)
    decreases w
  {
    hide And;
    if w == 0 {
      AndHalves(0, 0);
    } else {
      AndHalves(x, Pow2(w) - Pow2(h));
      if h == 0 {
        AndMask(x / 2, w - 1, 0);
      } else {
        AndMask(x / 2, w - 1, h - 1);
        NetHalves(x, h - 1);
        BaseDoubles(Net(x, h), h - 1);
      }
    }
  }

  lemma {:induction false} BaseDoubles(q: nat, h: nat)
    ensures Base(q, h + 1) == 2 * Base(q, h)
    ensures Top(q, h + 1) == 2 * Top(q, h) + 1
    decreases h
  {
    if h > 0 {
      BaseDoubles(2 * q, h - 1);
      BaseDoubles(2 * q + 1, h - 1);
    }
  }

  /** Setting the `h` low bits of a network address gives its last word. */
  lemma {:induction false} OrHosts(q: nat, h: nat)
    ensures Or(Base(q, h), Pow2(h) - 1) == Top(q, h)
  {
    var x, y := Base(q, h), Pow2(h) - 1;
    if h > 0 {
      OrHosts(q, h - 1);
      BaseDoubles(q, h - 1);
      assert x / 2 == Base(q, h - 1) && y / 2 == Pow2(h - 1) - 1 && y % 2 == 1;
      if x == 0 {
        assert Or(0, Pow2(h - 1) - 1) == Pow2(h - 1) - 1;
      }
    }
  }

  lemma FirstLast(c: Cidr)
    ensures First(c) == Base(Net(c.ip, 32 - c.prefix), 32 - c.prefix)
    ensures Last(c) == Top(Net(c.ip, 32 - c.prefix), 32 - c.prefix)
  {
    hide And, Or;
    var h := 32 - c.prefix;
    Masked(c.ip, c.prefix);
    OrHosts(Net(c.ip, h), h);
    PowValue();
    assert Not(Mask(c.prefix)) == Pow2(h) - 1;
  }

  lemma Masked(x: Word, prefix: nat)
    requires prefix <= 32
    ensures And(x, Mask(prefix)) == Base(Net(x, 32 - prefix), 32 - prefix)
  {
    hide And;
    Width(32 - prefix);
    PowValue();
    AndMask(x, 32, 32 - prefix);
  }

  lemma InsideIsNet(a: Cidr, b: Cidr)
    ensures Inside(a, b) <==> Net(a.ip, 32 - b.prefix) == Net(b.ip, 32 - b.prefix)
  {
    hide And, Mask;
    var h := 32 - b.prefix;
    Masked(a.ip, b.prefix);
    Masked(b.ip, b.prefix);
    var p, q := Net(a.ip, h), Net(b.ip, h);
    NetIsRange(Base(p, h), p, h);
    NetIsRange(Base(q, h), q, h);
    Adjacent(p, h);
    Adjacent(q, h);
  }

  lemma HoldsIsNet(c: Cidr, x: nat)
    ensures Holds(c, x) <==> Net(x, 32 - c.prefix) == Net(c.ip, 32 - c.prefix)
  {
    hide First, Last;
    FirstLast(c);
    NetIsRange(x, Net(c.ip, 32 - c.prefix), 32 - c.prefix);
  }

  // ----- the containment test, exactly -----

  lemma InsideIsHeld(a: Cidr, b: Cidr)
    ensures Inside(a, b) <==> Holds(b, a.ip)
  {
    hide Inside, Holds;
    InsideIsNet(a, b);
    HoldsIsNet(b, a.ip);
  }

  /** The two-way test is true exactly when some address is in both blocks. */
  lemma OverlapExact(a: Cidr, b: Cidr)
    ensures (Inside(a, b) || Inside(b, a)) <==> exists x: nat :: Holds(a, x) && Holds(b, x)
  {
    hide Inside, Holds;
    InsideIsHeld(a, b);
    InsideIsHeld(b, a);
    HoldsIsNet(a, a.ip);
    HoldsIsNet(b, b.ip);
    if x: nat :| Holds(a, x) && Holds(b, x) {
      HoldsIsNet(a, x);
      HoldsIsNet(b, x);
      InsideIsNet(a, b);
      InsideIsNet(b, a);
      if a.prefix <= b.prefix {
        Coarser(x, b.ip, 32 - b.prefix, 32 - a.prefix);
      } else {
        Coarser(x, a.ip, 32 - a.prefix, 32 - b.prefix);
      }
    }
  }

  /** The prefix comparison and the test together are containment of blocks. */
  lemma WithinExact(a: Cidr, b: Cidr)
    ensures (a.prefix >= b.prefix && Inside(a, b)) <==> forall x: nat :: Holds(a, x) ==> Holds(b, x)
  {
    hide Inside, Holds;
    InsideIsHeld(a, b);
    HoldsIsNet(a, a.ip);
    if a.prefix < b.prefix {
      Spread(a, b);
    } else if Inside(a, b) {
      InsideIsNet(a, b);
      forall x: nat | Holds(a, x) ensures Holds(b, x) {
        HoldsIsNet(a, x);
        HoldsIsNet(b, x);
        Coarser(x, a.ip, 32 - a.prefix, 32 - b.prefix);
      }
    }
  }

  /** A block with a shorter prefix has addresses the other does not. */
  lemma Spread(a: Cidr, b: Cidr)
    requires a.prefix < b.prefix
    ensures exists x: nat :: Holds(a, x) && !Holds(b, x)
  {
    hide Inside, Holds;
    var h, g := 32 - a.prefix, 32 - b.prefix;
    var q := Net(a.ip, h);
    var x, y := Base(q, h), Top(q, h);
    Adjacent(q, h);
    NetIsRange(x, q, h);
    NetIsRange(y, q, h);
    HoldsIsNet(a, x);
    HoldsIsNet(a, y);
    HoldsIsNet(b, x);
    HoldsIsNet(b, y);
    Adjacent(2 * q, h - 1);
    Adjacent(2 * q + 1, h - 1);
    NetIsRange(x, 2 * q, h - 1);
    NetIsRange(y, 2 * q + 1, h - 1);
    if Net(x, g) == Net(y, g) {
      Coarser(x, y, g, h - 1);
    }
  }

  // ----- networks -----

  datatype Network = Network(subnet: Cidr, pool: Cidr, gateway: Word, externalAccess: bool)

  predicate Canonical(c: Cidr) {
    c.ip == First(c)
  }

  /** An address hosts of the network may be given: in the subnet, neither its first nor
      its last address, and outside the dynamic pool. */
  predicate Usable(n: Network, x: nat) {
    Holds(n.subnet, x) && x != First(n.subnet) && x != Last(n.subnet) && !Holds(n.pool, x)
  }

  ghost predicate NetworkOk(n: Network) {
    && 8 <= n.subnet.prefix <= 30 && Canonical(n.subnet)
    && Canonical(n.pool) && (forall x: nat :: Holds(n.pool, x) ==> Holds(n.subnet, x))
    && Usable(n, n.gateway)
    && !n.externalAccess
  }

  ghost predicate Disjoint(a: Cidr, b: Cidr) {
    forall x: nat :: !(Holds(a, x) && Holds(b, x))
  }

  ghost predicate PairwiseDisjoint(nets: map<string, Network>, names: set<string>)
    requires names <= nets.Keys
  {
    forall a, b :: a in names && b in names && a != b ==> Disjoint(nets[a].subnet, nets[b].subnet)
  }

  ghost predicate NetworksOk(nets: map<string, Network>, names: set<string>)
    requires names <= nets.Keys
  {
    (forall name :: name in names ==> NetworkOk(nets[name])) && PairwiseDisjoint(nets, names)
  }

  /** One network's own rules, as the validator tests them. */
  method CheckNetwork(n: Network) returns (ok: bool)
    ensures ok <==> NetworkOk(n)
  {
    hide Inside, Holds, First, Last, Mask;
    var subnet, pool := n.subnet, n.pool;
    ok := true;
    if subnet.prefix < 8 || subnet.prefix > 30 || subnet.ip != And(subnet.ip, Mask(subnet.prefix)) {
      ok := false;
    }
    if pool.prefix < subnet.prefix || pool.ip != And(pool.ip, Mask(pool.prefix)) || !Inside(pool, subnet) {
      ok := false;
    }
    var gateway := Block(n.gateway, subnet.prefix);
    if !Inside(gateway, subnet) || Inside(gateway, pool) || gateway.ip == subnet.ip
       || gateway.ip == Or(subnet.ip, Not(Mask(subnet.prefix))) {
      ok := false;
    }
    if n.externalAccess {
      ok := false;
    }
    WithinExact(pool, subnet);
    InsideIsHeld(gateway, subnet);
    InsideIsHeld(gateway, pool);
    Ends(subnet);
    Ends(pool);
  }

  lemma Ends(c: Cidr)
    ensures First(c) == And(c.ip, Mask(c.prefix))
    ensures Last(c) == Or(First(c), Not(Mask(c.prefix)))
  {
  }

  /** Whether the new subnet overlaps none of those already accepted. */
  method CheckOverlap(subnet: Cidr, subnets: map<string, Cidr>) returns (ok: bool)
    ensures ok <==> forall other :: other in subnets ==> Disjoint(subnet, subnets[other])
  {
    hide Inside, Holds;
    ok := true;
    var rest := subnets.Keys;
    while rest != {}
      invariant rest <= subnets.Keys
      invariant ok <==> forall other :: other in subnets.Keys - rest ==> Disjoint(subnet, subnets[other])
      decreases rest
    {
      var other :| other in rest;
      var s := subnets[other];
      OverlapExact(subnet, s);
      ok := ok && !(Inside(subnet, s) || Inside(s, subnet));
      rest := rest - {other};
    }
  }

  /** The validator's loop over the management networks. It accepts exactly the plans
      whose networks are well formed and pairwise disjoint. */
  method CheckNetworks(nets: map<string, Network>)
    returns (ok: bool, subnets: map<string, Cidr>, pools: map<string, Cidr>, allocations: map<string, set<nat>>)
    ensures ok <==> NetworksOk(nets, nets.Keys)
    ensures ok ==> subnets == (map name | name in nets :: nets[name].subnet)
    ensures ok ==> pools == (map name | name in nets :: nets[name].pool)
    ensures ok ==> allocations == (map name | name in nets :: {nets[name].gateway})
  {
    hide NetworkOk, Disjoint, NetworksOk;
    ok, subnets, pools, allocations := true, map[], map[], map[];
    var rest := nets.Keys;
    ghost var done: set<string> := {};
    NoNetworks(nets);
    while rest != {}
      invariant done == nets.Keys - rest && rest <= nets.Keys
      invariant ok <==> NetworksOk(nets, done)
      invariant subnets == (map name | name in done :: nets[name].subnet)
      invariant pools == (map name | name in done :: nets[name].pool)
      invariant allocations == (map name | name in done :: {nets[name].gateway})
      decreases rest
    {
      var name :| name in rest;
      var n := nets[name];
      var fits := CheckNetwork(n);
      var apart := CheckOverlap(n.subnet, subnets);
      OneMore(nets, done, name);
      assert forall other :: other in done ==> other in subnets && subnets[other] == nets[other].subnet;
      ok := ok && fits && apart;
      subnets, pools := subnets[name := n.subnet], pools[name := n.pool];
      allocations := allocations[name := {n.gateway}];
      rest, done := rest - {name}, done + {name};
    }
    assert done == nets.Keys;
  }

  lemma NoNetworks(nets: map<string, Network>)
    ensures NetworksOk(nets, {})
  {
  }

  lemma OneMore(nets: map<string, Network>, names: set<string>, name: string)
    requires names <= nets.Keys && name in nets && name !in names
    ensures NetworksOk(nets, names + {name}) <==>
      NetworksOk(nets, names) && NetworkOk(nets[name])
      && forall other :: other in names ==> Disjoint(nets[name].subnet, nets[other].subnet)
  {
    hide Holds, NetworkOk;
    forall other | other in names
      ensures Disjoint(nets[name].subnet, nets[other].subnet) <==> Disjoint(nets[other].subnet, nets[name].subnet)
    {
    }
    if NetworksOk(nets, names + {name}) {
      assert forall a :: a in names ==> a in names + {name};
      assert name in names + {name};
    }
  }

  // ----- attachments -----

  datatype Attachment = Attachment(endpoint: string, network: string, address: Cidr)

  /** One attachment's rules: a management port, and a usable address of a known network
      that is not its gateway. */
  ghost predicate AttachmentOk(nets: map<string, Network>, ports: set<string>, a: Attachment) {
    && a.endpoint in ports
    && a.network in nets
    && a.address.prefix == nets[a.network].subnet.prefix
    && Usable(nets[a.network], a.address.ip)
    && a.address.ip != nets[a.network].gateway
  }

  /** Two attachments use different ports, and different addresses within a network. */
  ghost predicate Apart(a: Attachment, b: Attachment) {
    a.endpoint != b.endpoint && (a.network == b.network ==> a.address.ip != b.address.ip)
  }

  ghost predicate AttachmentsOk(nets: map<string, Network>, ports: set<string>, atts: seq<Attachment>) {
    && (forall i :: 0 <= i < |atts| ==> AttachmentOk(nets, ports, atts[i]))
    && (forall i, j :: 0 <= i < j < |atts| ==> Apart(atts[i], atts[j]))
  }

  /** The ports and addresses taken after the attachments `done`. */
  ghost predicate Tracks(nets: map<string, Network>, ports: set<string>, done: seq<Attachment>,
                         used: set<string>, allocations: map<string, set<nat>>)
  {
    && allocations.Keys == nets.Keys
    && (forall e :: e in ports ==> (e in used <==> exists a :: a in done && a.endpoint == e))
    && (forall name, x :: name in nets ==>
          (x in allocations[name] <==>
            x == nets[name].gateway || exists a :: a in done && a.network == name && a.address.ip == x))
  }

  lemma TracksStep(nets: map<string, Network>, ports: set<string>, done: seq<Attachment>,
                   used: set<string>, allocations: map<string, set<nat>>, a: Attachment)
    requires Tracks(nets, ports, done, used, allocations) && a.network in nets
    ensures Tracks(nets, ports, done + [a], used + {a.endpoint},
                   allocations[a.network := allocations[a.network] + {a.address.ip}])
  {
    var more := done + [a];
    assert forall b :: b in more <==> b in done || b == a;
  }

  /** The free port and address are exactly what keeps the new attachment apart. */
  lemma FreeIsApart(nets: map<string, Network>, ports: set<string>, done: seq<Attachment>,
                    used: set<string>, allocations: map<string, set<nat>>, a: Attachment)
    requires Tracks(nets, ports, done, used, allocations) && a.network in nets && a.endpoint in ports
    ensures a.endpoint !in used && a.address.ip !in allocations[a.network] <==>
      a.address.ip != nets[a.network].gateway && forall j :: 0 <= j < |done| ==> Apart(done[j], a)
  {
    if a.endpoint !in used && a.address.ip !in allocations[a.network] {
      forall j | 0 <= j < |done| ensures Apart(done[j], a) {
        assert done[j] in done;
      }
    }
  }

  lemma AttachmentsStep(nets: map<string, Network>, ports: set<string>, done: seq<Attachment>, a: Attachment)
    requires AttachmentsOk(nets, ports, done)
    ensures AttachmentsOk(nets, ports, done + [a]) <==>
      AttachmentOk(nets, ports, a) && forall j :: 0 <= j < |done| ==> Apart(done[j], a)
  {
    hide AttachmentOk, Apart;
    var more := done + [a];
    if AttachmentsOk(nets, ports, more) {
      assert AttachmentOk(nets, ports, more[|done|]);
      forall j | 0 <= j < |done| ensures Apart(done[j], a) {
        assert Apart(more[j], more[|done|]);
      }
    }
  }

  lemma AttachmentsPrefix(nets: map<string, Network>, ports: set<string>, atts: seq<Attachment>, i: nat)
    requires i <= |atts| && AttachmentsOk(nets, ports, atts)
    ensures AttachmentsOk(nets, ports, atts[..i])
  {
  }

  /** An attachment's address against its network, as the validator tests it. */
  method CheckAddress(n: Network, address: Cidr) returns (ok: bool)
    requires Canonical(n.subnet)
    ensures ok <==> address.prefix == n.subnet.prefix && Usable(n, address.ip)
  {
    hide Inside, Holds, First, Last, Mask;
    InsideIsHeld(address, n.subnet);
    InsideIsHeld(address, n.pool);
    Ends(n.subnet);
    ok := !(address.prefix != n.subnet.prefix || !Inside(address, n.subnet) || Inside(address, n.pool)
            || address.ip == n.subnet.ip || address.ip == Or(n.subnet.ip, Not(Mask(n.subnet.prefix))));
  }

  /** The validator's loop over the attachments; `taken` holds the ports the data edges
      use, none of which is a management port. */
  method CheckAttachments(nets: map<string, Network>, given: map<string, set<nat>>, ports: set<string>,
                          taken: set<string>, atts: seq<Attachment>) returns (ok: bool)
    requires NetworksOk(nets, nets.Keys) && taken !! ports
    requires given == (map name | name in nets :: {nets[name].gateway})
    ensures ok <==> AttachmentsOk(nets, ports, atts)
  {
    hide Usable, Apart, AttachmentsOk, Tracks;
    var used, allocations := taken, given;
    NoAttachments(nets, ports, taken, given);
    for i := 0 to |atts|
      invariant AttachmentsOk(nets, ports, atts[..i])
      invariant Tracks(nets, ports, atts[..i], used, allocations) && allocations.Keys == nets.Keys
    {
      var a := atts[i];
      assert atts[..i + 1] == atts[..i] + [a];
      AttachmentsStep(nets, ports, atts[..i], a);
      var free := false;
      if a.endpoint in ports && a.network in nets {
        FreeIsApart(nets, ports, atts[..i], used, allocations, a);
        assert NetworkOk(nets[a.network]);
        var fits := CheckAddress(nets[a.network], a.address);
        free := fits && a.endpoint !in used && a.address.ip !in allocations[a.network];
      }
      if !free {
        if AttachmentsOk(nets, ports, atts) {
          AttachmentsPrefix(nets, ports, atts, i + 1);
        }
        return false;
      }
      TracksStep(nets, ports, atts[..i], used, allocations, a);
      used := used + {a.endpoint};
      allocations := allocations[a.network := allocations[a.network] + {a.address.ip}];
    }
    assert atts[..|atts|] == atts;
    ok := true;
  }

  lemma NoAttachments(nets: map<string, Network>, ports: set<string>, taken: set<string>, given: map<string, set<nat>>)
    requires taken !! ports && given == (map name | name in nets :: {nets[name].gateway})
    ensures AttachmentsOk(nets, ports, []) && Tracks(nets, ports, [], taken, given)
  {
  }

  // ----- what an accepted plan guarantees -----

  /** Somebody with an address: a network's gateway or an attached port. */
  datatype Holder = Gateway(network: string) | Port(index: nat)

  predicate Declared(nets: map<string, Network>, atts: seq<Attachment>, h: Holder) {
    match h
    case Gateway(name) => name in nets
    case Port(i) => i < |atts| && atts[i].network in nets
  }

  function NetworkOf(nets: map<string, Network>, atts: seq<Attachment>, h: Holder): string
    requires Declared(nets, atts, h)
  {
    match h
    case Gateway(name) => name
    case Port(i) => atts[i].network
  }

  function AddressOf(nets: map<string, Network>, atts: seq<Attachment>, h: Holder): nat
    requires Declared(nets, atts, h)
  {
    match h
    case Gateway(name) => nets[name].gateway
    case Port(i) => atts[i].address.ip
  }

  /** In an accepted plan every holder's address is usable in its own network, lies in no
      other network and in no network's dynamic pool, and no two holders share one. */
  lemma PlanSound(nets: map<string, Network>, ports: set<string>, atts: seq<Attachment>, h: Holder)
    requires NetworksOk(nets, nets.Keys) && AttachmentsOk(nets, ports, atts) && Declared(nets, atts, h)
    ensures Usable(nets[NetworkOf(nets, atts, h)], AddressOf(nets, atts, h))
    ensures forall name :: name in nets ==>
      (Holds(nets[name].subnet, AddressOf(nets, atts, h)) <==> name == NetworkOf(nets, atts, h))
      && !Holds(nets[name].pool, AddressOf(nets, atts, h))
    ensures forall k: Holder :: Declared(nets, atts, k) && k != h ==>
      AddressOf(nets, atts, k) != AddressOf(nets, atts, h)
  {
    hide Holds;
    UsableAddress(nets, ports, atts, h);
    var own, x := NetworkOf(nets, atts, h), AddressOf(nets, atts, h);
    forall name | name in nets
      ensures (Holds(nets[name].subnet, x) <==> name == own) && !Holds(nets[name].pool, x)
    {
      assert NetworkOk(nets[name]);
      if name != own {
        assert Disjoint(nets[name].subnet, nets[own].subnet);
      }
    }
    forall k: Holder | Declared(nets, atts, k) && k != h ensures AddressOf(nets, atts, k) != x {
      UsableAddress(nets, ports, atts, k);
      if NetworkOf(nets, atts, k) == own {
        SameNetworkApart(nets, ports, atts, h, k);
      }
    }
  }

  lemma UsableAddress(nets: map<string, Network>, ports: set<string>, atts: seq<Attachment>, h: Holder)
    requires NetworksOk(nets, nets.Keys) && AttachmentsOk(nets, ports, atts) && Declared(nets, atts, h)
    ensures Usable(nets[NetworkOf(nets, atts, h)], AddressOf(nets, atts, h))
  {
    hide Usable;
    if h.Gateway? {
      assert NetworkOk(nets[h.network]);
    }
  }

  lemma SameNetworkApart(nets: map<string, Network>, ports: set<string>, atts: seq<Attachment>, h: Holder, k: Holder)
    requires AttachmentsOk(nets, ports, atts) && Declared(nets, atts, h) && Declared(nets, atts, k) && h != k
    requires NetworkOf(nets, atts, h) == NetworkOf(nets, atts, k)
    ensures AddressOf(nets, atts, h) != AddressOf(nets, atts, k)
  {
    if h.Port? && k.Port? {
      var i, j := h.index, k.index;
      assert Apart(atts[if i < j then i else j], atts[if i < j then j else i]);
    } else if h.Port? {
      assert AttachmentOk(nets, ports, atts[h.index]);
    } else if k.Port? {
      assert AttachmentOk(nets, ports, atts[k.index]);
    }
  }
}
