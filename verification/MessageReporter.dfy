/** The reporter a workload carries: datagrams with identifiers, and a ring of the latest
    observations of such datagrams. */
module MessageReporter {
  import opened Bytes
  import opened Headers
  import opened Options

  datatype Kind = Send | Receive

  datatype Event = Event(sequence: nat, id: Identifier, kind: Kind, length: nat, time: nat)

  datatype Report = Report(epoch: seq<Byte>, total: nat, evicted: nat, events: seq<Event>)

  const RING := 8
  const WORD := 0x1_0000_0000_0000_0000

  // ----- hexadecimal numbers -----

  function HexDigit(d: nat): (c: Byte)
    requires d < 16
    ensures LowerHex(c)
  {
    if d < 10 then 48 + d else 87 + d
  }

  /** The `width` low hexadecimal digits, most significant first. */
  function Hex(n: nat, width: nat): (s: seq<Byte>)
    ensures |s| == width && forall i :: 0 <= i < width ==> LowerHex(s[i])
  {
    if width == 0 then [] else Hex(n / 16, width - 1) + [HexDigit(n % 16)]
  }

  function Pow16(n: nat): nat {
    if n == 0 then 1 else 16 * Pow16(n - 1)
  }

  lemma {:induction false} HexInjective(m: nat, n: nat, width: nat)
    requires m < Pow16(width) && n < Pow16(width) && Hex(m, width) == Hex(n, width)
    ensures m == n
    decreases width
  {
    if width > 0 {
      var a, b := Hex(m, width), Hex(n, width);
      assert a[..width - 1] == Hex(m / 16, width - 1) && b[..width - 1] == Hex(n / 16, width - 1);
      assert a[width - 1] == HexDigit(m % 16) && b[width - 1] == HexDigit(n % 16);
      HexInjective(m / 16, n / 16, width - 1);
    }
  }

  lemma Pow16Word()
    ensures Pow16(16) == WORD
  {
    assert Pow16(4) == 0x1_0000;
    assert Pow16(8) == 0x1_0000_0000;
    assert Pow16(12) == 0x1_0000_0000_0000;
  }

  // ----- datagrams -----

  predicate Epoch(e: seq<Byte>) {
    |e| == 32 && forall i :: 0 <= i < 32 ==> LowerHex(e[i])
  }

  function MessageId(epoch: seq<Byte>, n: nat): seq<Byte> {
    epoch + Hex(n, 16)
  }

  function Wire(epoch: seq<Byte>, n: nat, beta: bool): seq<Byte> {
    Magic + MessageId(epoch, n) + [if beta then RequestB else RequestA]
  }

  /** A generated datagram is read back as the request it is. */
  lemma WireRead(epoch: seq<Byte>, n: nat, beta: bool)
    requires Epoch(epoch)
    ensures IdentifierOf(Wire(epoch, n, beta)) == Some(Identifier(MessageId(epoch, n), !beta, false))
  {
    hide Hex;
    var id, w := MessageId(epoch, n), Wire(epoch, n, beta);
    assert w[..4] == Magic && w[4..52] == id;
    assert forall i :: 4 <= i < 52 ==> w[i] == id[i - 4];
    assert forall i :: 0 <= i < 32 ==> id[i] == epoch[i];
    assert forall i :: 32 <= i < 48 ==> id[i] == Hex(n, 16)[i - 32];
  }

  /** Different message numbers and different epochs give different identifiers. */
  lemma MessageIdsDiffer(e: seq<Byte>, m: nat, f: seq<Byte>, n: nat)
    requires Epoch(e) && Epoch(f) && m < WORD && n < WORD && MessageId(e, m) == MessageId(f, n)
    ensures e == f && m == n
  {
    hide Hex;
    var a, b := MessageId(e, m), MessageId(f, n);
    assert a[..32] == e && b[..32] == f && a[32..] == Hex(m, 16) && b[32..] == Hex(n, 16);
    Pow16Word();
    HexInjective(m, n, 16);
  }

  // ----- the ring -----

  function Max(a: int, b: int): int {
    if a < b then b else a
  }

  /** The report after the first `n` observations. */
  function ReportAt(epoch: seq<Byte>, log: seq<Event>, n: nat): Report
    requires n <= |log|
  {
    var evicted := Max(0, n - RING);
    Report(epoch, n, evicted, log[evicted..n])
  }

  /** What a reporter with a monotonic clock has observed. */
  predicate Honest(log: seq<Event>) {
    && (forall i :: 0 <= i < |log| ==> log[i].sequence == i + 1 && log[i].length == 53 && |log[i].id.messageId| == 48)
    && (forall i, k :: 0 <= i < |log| && 0 <= k < |log[i].id.messageId| ==> LowerHex(log[i].id.messageId[k]))
    && (forall i, j :: 0 <= i < j < |log| ==> log[i].time <= log[j].time)
  }

  class Reporter {
    const epoch: seq<Byte>
    var sequence: nat
    var generated: nat
    var events: seq<Event>
    ghost var log: seq<Event>

    ghost predicate Valid()
      reads this
    {
      && Epoch(epoch) && Honest(log)
      && sequence == |log| && generated < WORD
      && events == log[Max(0, |log| - RING)..]
    }

    constructor (e: seq<Byte>)
      requires Epoch(e)
      ensures Valid() && epoch == e && log == [] && generated == 0
    {
      epoch, sequence, generated, events, log := e, 0, 0, [], [];
    }

    /** The next datagram, numbered modulo the word. */
    method Datagram(beta: bool) returns (wire: seq<Byte>)
      requires Valid()
      modifies this`generated
      ensures Valid() && generated == (old(generated) + 1) % WORD
      ensures |wire| == 53 && IdentifierOf(wire) == Some(Identifier(MessageId(epoch, generated), !beta, false))
    {
      generated := (generated + 1) % WORD;
      wire := Magic + epoch + Hex(generated, 16) + [if beta then RequestB else RequestA];
      assert wire == Wire(epoch, generated, beta);
      WireRead(epoch, generated, beta);
    }

    /** Records a datagram that carries an identifier; anything else is not observed. */
    method Observe(wire: seq<Byte>, kind: Kind, now: nat)
      requires Valid() && (log != [] ==> log[|log| - 1].time <= now)
      modifies this`sequence, this`events, this`log
      ensures Valid()
      ensures IdentifierOf(wire).None? ==> log == old(log)
      ensures IdentifierOf(wire).Some? ==>
        log == old(log) + [Event(old(sequence) + 1, IdentifierOf(wire).value, kind, 53, now)]
    {
      var id := IdentifierOf(wire);
      if id.None? {
        return;
      }
      sequence := sequence + 1;
      var e := Event(sequence, id.value, kind, |wire|, now);
      ghost var before := log;
      log := log + [e];
      HonestMore(before, e);
      events := events + [e];
      if |events| > RING {
        events := events[1..];
      }
    }

    method MakeReport() returns (r: Report)
      requires Valid()
      ensures r == ReportAt(epoch, log, |log|)
    {
      r := Report(epoch, sequence, sequence - |events|, events);
    }
  }

  lemma HonestMore(log: seq<Event>, e: Event)
    requires Honest(log) && e.sequence == |log| + 1 && e.length == 53 && |e.id.messageId| == 48
    requires forall k :: 0 <= k < 48 ==> LowerHex(e.id.messageId[k])
    requires log != [] ==> log[|log| - 1].time <= e.time
    ensures Honest(log + [e])
  {
  }
}
