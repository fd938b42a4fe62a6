/** The PCAPNG profile written by the capture worker: the byte layout of each
    block, the decoder of the packet index, and the scanner that finds the valid
    prefix of a file left behind by a crash.

    Layouts follow draft-ietf-opsawg-pcapng: section 3.1 (blocks), 3.5 (options),
    4.1 (section header), 4.2 (interface description), 4.3 (enhanced packet) and
    4.6 (interface statistics). */
module Pcapng {
  import opened Bytes
  import opened Headers
  import opened Options

  const SECTION := 0x0a0d0d0a
  const BYTE_ORDER := 0x1a2b3c4d
  const INTERFACE := 1
  const STATISTICS := 5
  const PACKET := 6
  const MAX_BLOCK := 1024 * 1024
  const MAX_BLOCKS := 1000000
  const MAX_ROWS := 2000

  // ----- writer side -----

  /** Bytes still missing to a multiple of four. */
  function Gap(n: nat): (g: nat)
    ensures g < 4 && (n + g) % 4 == 0
  {
    (4 - n % 4) % 4
  }

  function Zeros(n: nat): (z: seq<Byte>)
    ensures |z| == n
  {
    seq(n, _ => 0)
  }

  function Pad(b: seq<Byte>): (p: seq<Byte>)
    ensures |p| % 4 == 0 && |p| == |b| + Gap(|b|) && b <= p
  {
    b + Zeros(Gap(|b|))
  }

  function Block(kind: nat, body: seq<Byte>): (b: seq<Byte>)
    ensures |b| == |body| + 12
    ensures |body| % 4 == 0 ==> |b| % 4 == 0
  {
    Put(kind, 4) + Put(|body| + 12, 4) + body + Put(|body| + 12, 4)
  }

  function OptionField(code: nat, value: seq<Byte>): (b: seq<Byte>)
    ensures |b| % 4 == 0 && |b| == 4 + |value| + Gap(|value|)
  {
    Put(code, 2) + Put(|value|, 2) + Pad(value)
  }

  datatype Config = Config(iface: seq<Byte>, edge: seq<Byte>, snaplen: nat, byteBudget: nat)

  const Suffix := "; direction flags unavailable; offloads unknown"

  function Ascii(s: string): (b: seq<Byte>)
    ensures |b| == |s|
  {
    seq(|s|, i requires 0 <= i < |s| => s[i] as int % 256)
  }

  function Comment(c: Config): seq<Byte> {
    c.edge + Ascii(Suffix)
  }

  function SectionBody(): (b: seq<Byte>)
    ensures |b| == 16
  {
    Put(BYTE_ORDER, 4) + (Put(1, 2) + (Put(0, 2) + Put(0xffff_ffff_ffff_ffff, 8)))
  }

  function SectionBlock(): (b: seq<Byte>)
    ensures |b| == 28
  {
    Block(SECTION, SectionBody())
  }

  lemma Fours(a: nat, b: nat, c: nat)
    requires a % 4 == b % 4 == c % 4 == 0
    ensures (a + (b + (c + 4))) % 4 == 0 && (8 + a) % 4 == 0
  {
  }

  function InterfaceOptions(c: Config): (b: seq<Byte>)
    ensures |b| % 4 == 0
  {
    hide OptionField, Comment, Put;
    Fours(|OptionField(2, c.iface)|, |OptionField(3, Comment(c))|, |OptionField(9, [6])|);
    OptionField(2, c.iface) + (OptionField(3, Comment(c)) + (OptionField(9, [6]) + Put(0, 4)))
  }

  function InterfaceBody(c: Config): (b: seq<Byte>)
    ensures |b| % 4 == 0 && |b| == 8 + |InterfaceOptions(c)|
  {
    hide Put, InterfaceOptions;
    Fours(|InterfaceOptions(c)|, 0, 0);
    Put(1, 2) + (Put(0, 2) + (Put(c.snaplen, 4) + InterfaceOptions(c)))
  }

  function InterfaceBlock(c: Config): (b: seq<Byte>)
    ensures |b| % 4 == 0 && |b| >= 20
  {
    Block(INTERFACE, InterfaceBody(c))
  }

  /** What a segment holds after its two header blocks. */
  datatype Entry = Packet(micros: nat, data: seq<Byte>, original: nat)
                 | Statistics(now: nat, received: Option<nat>, dropped: Option<nat>)

  function PacketBody(e: Entry): (b: seq<Byte>)
    requires e.Packet?
    ensures |b| % 4 == 0 && |b| == 20 + |e.data| + Gap(|e.data|)
  {
    Put(0, 4) + (Put(e.micros / 0x1_0000_0000, 4) + (Put(e.micros, 4)
    + (Put(|e.data|, 4) + (Put(e.original, 4) + Pad(e.data)))))
  }

  function Counter(code: nat, value: Option<nat>): (b: seq<Byte>)
    ensures |b| % 4 == 0 && |b| <= 12
  {
    match value
    case None => []
    case Some(v) => Put(code, 2) + Put(8, 2) + Put(v, 8)
  }

  function StatisticsBody(e: Entry): (b: seq<Byte>)
    requires e.Statistics?
    ensures |b| % 4 == 0 && 16 <= |b| <= 40
  {
    Put(0, 4) + (Put(e.now / 0x1_0000_0000, 4) + (Put(e.now, 4)
    + (Counter(6, e.received) + (Counter(7, e.dropped) + Put(0, 4)))))
  }

  function EntryBlock(e: Entry): (b: seq<Byte>)
    ensures |b| % 4 == 0 && |b| >= 28
  {
    if e.Packet? then Block(PACKET, PacketBody(e)) else Block(STATISTICS, StatisticsBody(e))
  }

  function Entries(es: seq<Entry>): (b: seq<Byte>)
  {
    if es == [] then [] else Entries(es[..|es| - 1]) + EntryBlock(es[|es| - 1])
  }

  /** The bytes of a segment whose two headers were written. */
  function File(c: Config, es: seq<Entry>): seq<Byte> {
    SectionBlock() + InterfaceBlock(c) + Entries(es)
  }

  /** The configurations that `Writer::open` accepts in full and the decoder reads. */
  ghost predicate UsableConfig(c: Config) {
    && 1 <= c.snaplen <= 65535
    && |c.iface| <= 65535
    && |Comment(c)| <= 65535
  }

  /** What `Writer::packet` and `Writer::close` put into the file. */
  ghost predicate ValidEntry(c: Config, e: Entry) {
    match e
    case Packet(micros, data, original) =>
      micros < 0x1_0000_0000_0000_0000 && |data| <= c.snaplen && |data| <= original < 0x1_0000_0000
    case Statistics(now, received, dropped) =>
      && now < 0x1_0000_0000_0000_0000
      && (received.Some? ==> received.value < 0x1_0000_0000_0000_0000)
      && (dropped.Some? ==> dropped.value < 0x1_0000_0000_0000_0000)
  }

  ghost predicate ValidEntries(c: Config, es: seq<Entry>) {
    forall e :: e in es ==> ValidEntry(c, e)
  }

  /** What was written to one file: how many header blocks, then which entries. */
  datatype Log = Log(headers: nat, entries: seq<Entry>)

  function Image(c: Config, l: Log): seq<Byte> {
    (if l.headers >= 1 then SectionBlock() else [])
    + (if l.headers >= 2 then InterfaceBlock(c) else []) + Entries(l.entries)
  }

  /** A log that `open`, `packet` and `close` can produce. */
  ghost predicate ValidLog(c: Config, l: Log) {
    && l.headers <= 2
    && (l.headers == 0 ==> l.entries == [])
    && (l.headers == 2 ==> |c.iface| <= 65535 && |Comment(c)| <= 65535)
    && ValidEntries(c, l.entries)
  }

  // ----- reader side -----

  function Le16(b: seq<Byte>, n: nat): (v: nat)
    requires n + 2 <= |b|
  {
    Get(b[n..n + 2])
  }

  function Le32(b: seq<Byte>, n: nat): (v: nat)
    requires n + 4 <= |b|
    ensures v < 0x1_0000_0000
  {
    RadixValues();
    Get(b[n..n + 4])
  }

  datatype Row = Row(packetIndex: nat, blockOffset: nat, micros: nat, captured: nat, original: nat,
                     truncated: bool, headers: Headers)

  /** The decoder's running variables. */
  datatype Parser = Parser(section: bool, iface: bool, snaplen: nat, packets: nat, blocks: nat, rows: seq<Row>)

  const Start := Parser(false, false, 0, 0, 0, [])

  /** The option list of an interface block, from byte `i` up to the trailing length. */
  predicate OptionsOk(b: seq<Byte>, i: nat)
    requires 4 <= |b|
    decreases |b| - i
  {
    if i + 8 > |b| then true
    else
      var code, size, j := Le16(b, i), Le16(b, i + 2), i + 4;
      && j + size <= |b| - 4
      && (if code == 0 then size == 0
          else (code == 9 ==> size == 1 && b[j] == 6) && code != 14 && OptionsOk(b, j + size + Gap(size)))
  }

  function RowOf(b: seq<Byte>, offset: nat, index: nat, messages: bool): (r: Row)
    requires |b| >= 32 && 28 + Le32(b, 20) <= |b|
  {
    var captured, original := Le32(b, 20), Le32(b, 24);
    Row(index, offset, Le32(b, 12) * 0x1_0000_0000 + Le32(b, 16), captured, original, captured < original,
        HeadersOf(b[28..28 + captured], messages))
  }

  /** One whole block `b` found at `offset`. */
  function Consume(p: Parser, b: seq<Byte>, offset: nat, limit: nat, messages: bool): (r: Option<Parser>)
    requires |b| >= 12
    ensures r.Some? && |p.rows| <= p.packets ==> |r.value.rows| <= r.value.packets
  {
    var kind, n := Le32(b, 0), p.(blocks := p.blocks + 1);
    if Le32(b, |b| - 4) != |b| then None
    else if !p.section then
      if kind == SECTION && |b| == 28 && Le32(b, 8) == BYTE_ORDER && Le32(b, 12) == 1
      then Some(n.(section := true)) else None
    else if kind == INTERFACE then
      if !p.iface && |b| >= 20 && b[8] == 1 && b[9] == 0 && 0 < Le32(b, 12) <= 65535 && OptionsOk(b, 16)
      then Some(n.(iface := true, snaplen := Le32(b, 12))) else None
    else if kind == PACKET then
      if p.iface && |b| >= 32 && Le32(b, 8) == 0 && Le32(b, 20) <= Le32(b, 24) && Le32(b, 20) <= p.snaplen
         && 32 + Le32(b, 20) + Gap(Le32(b, 20)) == |b|
      then Some(n.(packets := p.packets + 1,
                   rows := if |p.rows| < limit then p.rows + [RowOf(b, offset, p.packets, messages)] else p.rows))
      else None
    else if kind == STATISTICS then
      if p.iface && |b| >= 24 && Le32(b, 8) == 0 then Some(n) else None
    else None
  }

  /** The block starting at `offset`, when its length field is acceptable and it is all there. */
  function BlockAt(bytes: seq<Byte>, offset: nat): (r: Option<seq<Byte>>)
    requires offset <= |bytes|
    ensures r.Some? ==> |r.value| >= 12 && |r.value| % 4 == 0 && |r.value| <= MAX_BLOCK
                        && offset + |r.value| <= |bytes|
                        && r.value == bytes[offset..offset + |r.value|]
  {
    if |bytes| - offset < 12 then None
    else
      var length := Le32(bytes, offset + 4);
      if length < 12 || length % 4 != 0 || length > MAX_BLOCK || length > |bytes| - offset then None
      else Some(bytes[offset..offset + length])
  }

  /** The decoder from `offset` on; `None` is the exception that rejects the whole file. */
  function DecodeFrom(bytes: seq<Byte>, offset: nat, p: Parser, limit: nat, messages: bool): (r: Option<Parser>)
    requires offset <= |bytes|
    ensures r.Some? && |p.rows| <= p.packets ==> |r.value.rows| <= r.value.packets
    decreases |bytes| - offset
  {
    if offset == |bytes| then (if p.section && p.iface then Some(p) else None)
    else if p.blocks >= MAX_BLOCKS then None
    else
      match BlockAt(bytes, offset)
      case None => None
      case Some(b) =>
        match Consume(p, b, offset, limit, messages)
        case None => None
        case Some(n) => DecodeFrom(bytes, offset + |b|, n, limit, messages)
  }

  datatype Decoded = Decoded(rows: seq<Row>, packetCount: nat, omitted: nat)

  function Decode(bytes: seq<Byte>, limit: nat, messages: bool): (r: Option<Decoded>)
  {
    if limit > MAX_ROWS then None
    else
      match DecodeFrom(bytes, 0, Start, limit, messages)
      case None => None
      case Some(p) => Some(Decoded(p.rows, p.packets, p.packets - |p.rows|))
  }

  /** The option loop of the decoder. */
  method CheckOptions(b: seq<Byte>) returns (ok: bool)
    requires 20 <= |b|
    ensures ok == OptionsOk(b, 16)
  {
    var i := 16;
    while i + 4 <= |b| - 4
      invariant OptionsOk(b, 16) == OptionsOk(b, i)
      decreases |b| - i
    {
      var code, size := Le16(b, i), Le16(b, i + 2);
      i := i + 4;
      if i + size > |b| - 4 {
        return false;
      }
      if code == 0 {
        return size == 0;
      }
      if code == 9 && !(size == 1 && b[i] == 6) {
        return false;
      }
      if code == 14 {
        return false;
      }
      i := i + size + Gap(size);
    }
    return true;
  }

  /** The decoder's block loop computes `Decode`. */
  method DecodeSegment(bytes: seq<Byte>, limit: nat, messages: bool) returns (r: Option<Decoded>)
    ensures r == Decode(bytes, limit, messages)
  {
    hide BlockAt, Consume;
    if limit > MAX_ROWS {
      return None;
    }
    var p, offset := Start, 0;
    while offset < |bytes|
      invariant 0 <= offset <= |bytes| && |p.rows| <= p.packets
      invariant DecodeFrom(bytes, 0, Start, limit, messages) == DecodeFrom(bytes, offset, p, limit, messages)
    {
      if p.blocks >= MAX_BLOCKS {
        return None;
      }
      var b := BlockAt(bytes, offset);
      if b.None? {
        return None;
      }
      var next := Consume(p, b.value, offset, limit, messages);
      if next.None? {
        return None;
      }
      p, offset := next.value, offset + |b.value|;
    }
    if !(p.section && p.iface) {
      return None;
    }
    return Some(Decoded(p.rows, p.packets, p.packets - |p.rows|));
  }

  // ----- crash-prefix scanner -----

  datatype Scanner = Scanner(section: bool, iface: bool)

  /** Whether the scanner counts block `b`, and its flags afterwards. */
  function Inspect(s: Scanner, b: seq<Byte>): (r: Option<Scanner>)
    requires |b| >= 12
  {
    var kind := Le32(b, 0);
    if Le32(b, |b| - 4) != |b| then None
    else if !s.section then
      if kind == SECTION && |b| >= 28 && Le32(b, 8) == BYTE_ORDER then Some(s.(section := true)) else None
    else if kind == INTERFACE then
      if |b| >= 20 then Some(s.(iface := true)) else None
    else if kind == PACKET then
      if s.iface && |b| >= 32 && Le32(b, 8) == 0 && Le32(b, 20) <= Le32(b, 24) && Le32(b, 20) <= |b| - 32
      then Some(s) else None
    else Some(s)
  }

  /** `validPrefixBytes`, scanning from `offset` on. */
  function ValidPrefix(bytes: seq<Byte>, offset: nat, s: Scanner): (n: nat)
    requires offset <= |bytes|
    ensures offset <= n <= |bytes|
    decreases |bytes| - offset
  {
    match BlockAt(bytes, offset)
    case None => offset
    case Some(b) =>
      match Inspect(s, b)
      case None => offset
      case Some(t) => ValidPrefix(bytes, offset + |b|, t)
  }

  const Fresh := Scanner(false, false)

  /** The scanner's loop: it stops at the first block that is cut short or wrong. */
  method InspectPartial(bytes: seq<Byte>) returns (valid: nat)
    ensures valid == ValidPrefix(bytes, 0, Fresh)
  {
    valid := 0;
    var s := Fresh;
    while true
      invariant valid <= |bytes|
      invariant ValidPrefix(bytes, 0, Fresh) == ValidPrefix(bytes, valid, s)
      decreases |bytes| - valid
    {
      var b := BlockAt(bytes, valid);
      if b.None? {
        break;
      }
      var t := Inspect(s, b.value);
      if t.None? {
        break;
      }
      s, valid := t.value, valid + |b.value|;
    }
  }
}
