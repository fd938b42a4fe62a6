/** The bounded link/network/transport header decoder of the packet index, and
    the GLM1 identifier that it can read from an IPv4 UDP payload. */
module Headers {
  import opened Bytes
  import opened Options

  datatype Protocol = Other | Arp | Ipv4 | Ipv6 | Icmp | Icmpv6 | Tcp | Udp

  datatype Status = Complete | TruncatedHeader | MalformedHeader | UnsupportedIpv6Extension
                  | UnsupportedEthertype | FragmentNoReassembly

  datatype Identifier = Identifier(messageId: seq<Byte>, alpha: bool, response: bool)

  datatype Headers = Headers(
    protocol: Protocol,
    status: Status,
    etherType: Option<nat>,
    source: Option<seq<Byte>>,
    destination: Option<seq<Byte>>,
    ipProtocol: Option<nat>,
    fragmented: Option<bool>,
    sourcePort: Option<nat>,
    destinationPort: Option<nat>,
    identifier: Option<Identifier>)

  const Blank := Headers(Other, Complete, None, None, None, None, None, None, None, None)

  /** Big-endian 16-bit read. */
  function Be(b: seq<Byte>, n: nat): (r: nat)
    requires n + 2 <= |b|
    ensures r < 0x1_0000
  {
    var hi: int, lo: int := b[n], b[n + 1];
    hi * 256 + lo
  }

  // ----- GLM1 identifiers -----

  const Magic: seq<Byte> := [71, 76, 77, 49] // "GLM1"
  const RequestA: Byte := 65
  const RequestB: Byte := 66
  const ResponseA: Byte := 97
  const ResponseB: Byte := 98

  predicate LowerHex(c: Byte) {
    48 <= c <= 57 || 97 <= c <= 102
  }

  function IdentifierOf(wire: seq<Byte>): (r: Option<Identifier>)
  {
    if |wire| != 53 || wire[..4] != Magic || wire[52] !in {RequestA, RequestB, ResponseA, ResponseB} then None
    else if exists i :: 4 <= i < 52 && !LowerHex(wire[i]) then None
    else Some(Identifier(wire[4..52], wire[52] == RequestA || wire[52] == ResponseA, wire[52] >= ResponseA))
  }

  // ----- header decoding -----

  datatype Link = ShortLink | Link(etherType: nat, pos: nat)

  predicate VlanType(t: nat) {
    t == 0x8100 || t == 0x88a8
  }

  /** Up to `tags` VLAN tags are stepped over. */
  function SkipVlan(b: seq<Byte>, etherType: nat, pos: nat, tags: nat): (l: Link)
    ensures l.Link? ==> pos <= l.pos <= pos + 4 * tags && (pos <= |b| ==> l.pos <= |b|)
    decreases tags
  {
    if tags == 0 || !VlanType(etherType) then Link(etherType, pos)
    else if |b| < pos + 4 then ShortLink
    else SkipVlan(b, Be(b, pos + 2), pos + 4, tags - 1)
  }

  function LinkOf(b: seq<Byte>): (l: Link)
    ensures l.Link? ==> 14 <= l.pos <= |b|
  {
    if |b| < 14 then ShortLink else SkipVlan(b, Be(b, 12), 14, 2)
  }

  /** Either the headers are final, or the transport header starts at `pos` and
      the datagram ends at `end`. */
  datatype Network = Final(headers: Headers)
                   | Transport(headers: Headers, next: nat, fragment: bool, pos: nat, end: nat)

  function Min(a: nat, b: nat): nat { if a <= b then a else b }

  function Ipv4Of(b: seq<Byte>, pos: nat): (n: Network)
    requires pos <= |b|
    ensures n.Transport? ==> n.end <= |b|
  {
    var h := Blank.(protocol := Ipv4, etherType := Some(0x0800));
    if |b| < pos + 20 then Final(h.(status := TruncatedHeader))
    else
      var ihl := b[pos] % 16 * 4;
      var length := Be(b, pos + 2);
      if b[pos] / 16 != 4 || ihl < 20 || length < ihl then Final(h.(status := MalformedHeader))
      else if |b| < pos + ihl then Final(h.(status := TruncatedHeader))
      else
        Transport(h.(source := Some(b[pos + 12..pos + 16]), destination := Some(b[pos + 16..pos + 20])),
                  b[pos + 9], Be(b, pos + 6) % 0x4000 != 0, pos + ihl, Min(|b|, pos + length))
  }

  predicate Ipv6Extension(next: nat) {
    next in {0, 43, 44, 50, 51, 60}
  }

  function Ipv6Of(b: seq<Byte>, pos: nat): (n: Network)
    requires pos <= |b|
    ensures n.Transport? ==> n.end <= |b|
  {
    var h := Blank.(protocol := Ipv6, etherType := Some(0x86dd));
    if |b| < pos + 40 then Final(h.(status := TruncatedHeader))
    else if b[pos] / 16 != 6 then Final(h.(status := MalformedHeader))
    else
      var g := h.(source := Some(b[pos + 8..pos + 24]), destination := Some(b[pos + 24..pos + 40]));
      var next := b[pos + 6];
      if Ipv6Extension(next) then Final(g.(status := UnsupportedIpv6Extension, ipProtocol := Some(next)))
      else Transport(g, next, false, pos + 40, Min(|b|, pos + 40 + Be(b, pos + 4)))
  }

  function NetworkOf(b: seq<Byte>, etherType: nat, pos: nat): (n: Network)
    requires pos <= |b|
    ensures n.Transport? ==> n.end <= |b|
  {
    if etherType == 0x0806 then Final(Blank.(protocol := Arp, etherType := Some(etherType)))
    else if etherType == 0x0800 then Ipv4Of(b, pos)
    else if etherType == 0x86dd then Ipv6Of(b, pos)
    else Final(Blank.(etherType := Some(etherType), status := UnsupportedEthertype))
  }

  function TransportOf(b: seq<Byte>, n: Network, messages: bool): (h: Headers)
    requires n.Transport? && n.end <= |b|
  {
    var h := n.headers.(ipProtocol := Some(n.next), fragmented := Some(n.fragment));
    var tcp := n.next == 6;
    if n.fragment then h.(status := FragmentNoReassembly)
    else if n.next == 1 then h.(protocol := Icmp)
    else if n.next == 58 then h.(protocol := Icmpv6)
    else if n.next != 6 && n.next != 17 then h
    else
      var t := h.(protocol := if tcp then Tcp else Udp);
      if n.end < n.pos + (if tcp then 20 else 8) then t.(status := TruncatedHeader)
      else if (tcp && b[n.pos + 12] / 16 < 5) || (!tcp && Be(b, n.pos + 4) < 8) then t.(status := MalformedHeader)
      else if tcp && n.end < n.pos + b[n.pos + 12] / 16 * 4 then t.(status := TruncatedHeader)
      else
        t.(sourcePort := Some(Be(b, n.pos)),
           destinationPort := Some(Be(b, n.pos + 2)),
           identifier :=
             if messages && t.etherType == Some(0x0800) && !tcp && Be(b, n.pos + 4) == 61 && n.end >= n.pos + 61
             then IdentifierOf(b[n.pos + 8..n.pos + 61]) else None)
  }

  /** What the decoder reports for the captured bytes `b`. */
  function HeadersOf(b: seq<Byte>, messages: bool): (h: Headers)
  {
    match LinkOf(b)
    case ShortLink => Blank.(status := TruncatedHeader)
    case Link(etherType, pos) =>
      var n := NetworkOf(b, etherType, pos);
      if n.Final? then n.headers else TransportOf(b, n, messages)
  }

  /** The decoder itself: every index it uses is inside the captured bytes,
      whatever those bytes are, and it reports `HeadersOf`. */
  method DecodeHeaders(b: seq<Byte>, messages: bool) returns (h: Headers)
    ensures h == HeadersOf(b, messages)
  {
    if |b| < 14 {
      return Blank.(status := TruncatedHeader);
    }
    var etherType, pos := Be(b, 12), 14;
    var vlan := 0;
    while vlan < 2 && VlanType(etherType)
      invariant 0 <= vlan <= 2 && 14 <= pos <= |b|
      invariant LinkOf(b) == SkipVlan(b, etherType, pos, 2 - vlan)
    {
      if |b| < pos + 4 {
        return Blank.(status := TruncatedHeader);
      }
      etherType, pos, vlan := Be(b, pos + 2), pos + 4, vlan + 1;
    }
    var n := NetworkOf(b, etherType, pos);
    h := if n.Final? then n.headers else TransportOf(b, n, messages);
  }

  // ----- truncation by the snap length -----

  lemma {:induction false} SkipVlanPrefix(b: seq<Byte>, k: nat, etherType: nat, pos: nat, tags: nat)
    requires k <= |b|
    ensures SkipVlan(b[..k], etherType, pos, tags).ShortLink?
            || SkipVlan(b[..k], etherType, pos, tags) == SkipVlan(b, etherType, pos, tags)
    decreases tags
  {
    if tags > 0 && VlanType(etherType) && pos + 4 <= k {
      SkipVlanPrefix(b, k, Be(b, pos + 2), pos + 4, tags - 1);
    }
  }

  lemma NetworkPrefix(b: seq<Byte>, k: nat, etherType: nat, pos: nat)
    requires pos <= k <= |b|
    ensures var n, full := NetworkOf(b[..k], etherType, pos), NetworkOf(b, etherType, pos);
            if n.Final? then CutOf(n.headers, full.headers) && (n.headers.status == TruncatedHeader || n == full)
                             && (n.headers.status == TruncatedHeader ==>
                                   n.headers == Started(etherType) && etherType in {0x0800, 0x86dd})
            else full.Transport? && n == full.(end := n.end) && n.end <= full.end && Unported(n.headers)
    ensures NetworkOf(b, etherType, pos).headers.etherType == Some(etherType)
  {
    var p := b[..k];
    if etherType == 0x0800 && pos + 20 <= k {
      assert p[pos + 12..pos + 16] == b[pos + 12..pos + 16];
      assert p[pos + 16..pos + 20] == b[pos + 16..pos + 20];
    } else if etherType == 0x86dd && pos + 40 <= k {
      assert p[pos + 8..pos + 24] == b[pos + 8..pos + 24];
      assert p[pos + 24..pos + 40] == b[pos + 24..pos + 40];
    }
  }

  /** Nothing of the transport header is reported yet. */
  predicate Unported(h: Headers) {
    h.sourcePort.None? && h.destinationPort.None? && h.identifier.None?
  }

  /** What is reported of a network header that is cut off. */
  function Started(etherType: nat): Headers {
    Blank.(status := TruncatedHeader, etherType := Some(etherType), protocol := if etherType == 0x0800 then Ipv4 else Ipv6)
  }

  /** Not reported, or reported alike. */
  predicate Agrees<T(==)>(cut: Option<T>, whole: Option<T>) {
    cut.None? || cut == whole
  }

  /** The protocol of the whole packet or one that encloses it. */
  predicate Encloses(p: Protocol, whole: Headers) {
    || p == whole.protocol
    || p == Other
    || (p == Ipv4 && whole.etherType == Some(0x0800))
    || (p == Ipv6 && whole.etherType == Some(0x86dd))
  }

  /** A cut packet is reported as the whole one, an identifier beyond the cut aside, or as
      truncated; then every field that is reported is the whole packet's. */
  ghost predicate CutOf(cut: Headers, whole: Headers) {
    && Agrees(cut.etherType, whole.etherType)
    && Agrees(cut.source, whole.source) && Agrees(cut.destination, whole.destination)
    && Agrees(cut.ipProtocol, whole.ipProtocol) && Agrees(cut.fragmented, whole.fragmented)
    && Agrees(cut.sourcePort, whole.sourcePort) && Agrees(cut.destinationPort, whole.destinationPort)
    && Agrees(cut.identifier, whole.identifier)
    && Encloses(cut.protocol, whole)
    && (cut.status == TruncatedHeader || cut == whole || cut == whole.(identifier := None))
  }

  lemma TransportPrefix(b: seq<Byte>, k: nat, n: Network, full: Network, messages: bool)
    requires k <= |b| && n.Transport? && full.Transport?
    requires n == full.(end := n.end) && n.end <= full.end && n.end <= k && full.end <= |b| && Unported(n.headers)
    ensures CutOf(TransportOf(b[..k], n, messages), TransportOf(b, full, messages))
  {
    var p := b[..k];
    if n.end >= n.pos + 61 {
      assert p[n.pos + 8..n.pos + 61] == b[n.pos + 8..n.pos + 61];
    }
    if n.end >= n.pos + 8 {
      assert Be(p, n.pos) == Be(b, n.pos) && Be(p, n.pos + 2) == Be(b, n.pos + 2);
      assert Be(p, n.pos + 4) == Be(b, n.pos + 4);
    }
  }

  /** Cutting a packet at any snap length never makes the decoder report something
      else: the cut packet is reported exactly like the whole packet, except that an
      identifier beyond the cut is not reported, or as truncated with fewer fields of
      the whole packet and its protocol or an enclosing one. */
  lemma TruncationNeverMisreports(b: seq<Byte>, k: nat, messages: bool)
    requires k <= |b|
    ensures CutOf(HeadersOf(b[..k], messages), HeadersOf(b, messages))
  {
    hide NetworkOf, TransportOf;
    var p := b[..k];
    if k >= 14 {
      SkipVlanPrefix(b, k, Be(b, 12), 14, 2);
      var l := LinkOf(p);
      if l.Link? {
        NetworkPrefix(b, k, l.etherType, l.pos);
        var n, full := NetworkOf(p, l.etherType, l.pos), NetworkOf(b, l.etherType, l.pos);
        if n.Transport? {
          TransportPrefix(b, k, n, full, messages);
        } else if full.Transport? {
          KeepsNetwork(b, full, messages);
        }
      }
    }
  }

  /** The transport header leaves what the network header gave. */
  lemma KeepsNetwork(b: seq<Byte>, n: Network, messages: bool)
    requires n.Transport? && n.end <= |b|
    ensures var h := TransportOf(b, n, messages);
            h.etherType == n.headers.etherType && h.source == n.headers.source && h.destination == n.headers.destination
  {
  }
}
