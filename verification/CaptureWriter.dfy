/** The capture worker's segment writer: byte budget, segment list and the link
    from every published file to what the packet index will decode from it. */
module CaptureWriter {
  import opened Bytes
  import opened Options
  import opened Pcapng
  import opened PcapngTheorems

  const MAX_SEGMENTS := 1024

  datatype Outcome = Done | SegmentLimit | OpenFailed | QuotaExhausted | MetadataTooLong | InvalidLength
                   | SyncFailed | FinalizeFailed

  /** The numbers recorded for a closed segment. */
  datatype Segment = Segment(sequence: nat, size: nat, packets: nat, captured: nat, original: nat, truncated: nat)

  datatype Totals = Totals(packets: nat, captured: nat, original: nat, truncated: nat)

  function TotalsOf(es: seq<Entry>): Totals {
    if es == [] then Totals(0, 0, 0, 0)
    else
      var t, e := TotalsOf(es[..|es| - 1]), es[|es| - 1];
      if e.Statistics? then t
      else Totals(t.packets + 1, t.captured + |e.data|, t.original + e.original,
                  t.truncated + if |e.data| < e.original then 1 else 0)
  }

  function SizeOf(segments: seq<Segment>): nat {
    if segments == [] then 0 else SizeOf(segments[..|segments| - 1]) + segments[|segments| - 1].size
  }

  /** A published file and its manifest row describe the same log. */
  ghost predicate Describes(c: Config, l: Log, file: seq<Byte>, s: Segment) {
    && ValidLog(c, l)
    && l.headers >= 1
    && file == Image(c, l)
    && s.size == |file|
    && Totals(s.packets, s.captured, s.original, s.truncated) == TotalsOf(l.entries)
  }

  class Writer {
    const config: Config
    var active: bool
    var file: seq<Byte>
    var bytes: nat
    var total: nat
    var sequence: nat
    var packets: nat
    var captured: nat
    var original: nat
    var truncated: nat
    var segments: seq<Segment>
    var published: seq<seq<Byte>>
    ghost var log: Log
    ghost var logs: seq<Log>

    ghost predicate Valid()
      reads this
    {
      && total + bytes <= config.byteBudget
      && total == SizeOf(segments)
      && |segments| == |published| == |logs| == sequence <= MAX_SEGMENTS
      && (forall i :: 0 <= i < sequence ==>
            segments[i].sequence == i && Describes(config, logs[i], published[i], segments[i]))
      && (active ==>
            && sequence < MAX_SEGMENTS
            && ValidLog(config, log)
            && file == Image(config, log)
            && bytes == |file|
            && (log.headers == 0 ==> total + 28 > config.byteBudget)
            && Totals(packets, captured, original, truncated) == TotalsOf(log.entries))
    }

    constructor (c: Config)
      ensures Valid() && config == c && !active && segments == [] && published == [] && logs == []
      ensures total == 0 && sequence == 0
    {
      config := c;
      active, file, log := false, [], Log(0, []);
      bytes, total, sequence, packets, captured, original, truncated := 0, 0, 0, 0, 0, 0, 0;
      segments, published, logs := [], [], [];
    }

    /** One block goes out whole, or nothing is written. */
    method Emit(block: seq<Byte>) returns (ok: bool)
      modifies this`file, this`bytes
      ensures ok == (total + old(bytes) + |block| <= config.byteBudget)
      ensures ok ==> file == old(file) + block && bytes == old(bytes) + |block|
      ensures !ok ==> file == old(file) && bytes == old(bytes)
    {
      ok := total + bytes + |block| <= config.byteBudget;
      if ok {
        file, bytes := file + block, bytes + |block|;
      }
    }

    /** `open`: an error after the first block leaves the file open without its
        interface block, which is what `log.headers` remembers. */
    method Open(created: bool, synced: bool) returns (r: Outcome)
      requires Valid()
      modifies this
      ensures Valid()
      ensures segments == old(segments) && published == old(published) && logs == old(logs) && total == old(total)
      ensures sequence == old(sequence)
      ensures old(active) || old(sequence) >= MAX_SEGMENTS <==> r == SegmentLimit
      ensures r == SegmentLimit || r == OpenFailed ==>
                active == old(active) && file == old(file) && log == old(log) && bytes == old(bytes)
      ensures r != SegmentLimit && r != OpenFailed ==> active && log.headers <= 2 && log.entries == []
      ensures r == Done || r == SyncFailed <==> active && !old(active) && log.headers == 2
      ensures r == OpenFailed <==> !old(active) && old(sequence) < MAX_SEGMENTS && !created
      ensures r != SegmentLimit && r != OpenFailed ==>
                && bytes == |file|
                && (log.headers >= 1 <==> total + 28 <= config.byteBudget)
                && (log.headers == 2 <==> total + 28 + |InterfaceBlock(config)| <= config.byteBudget
                                          && |config.iface| <= 65535 && |Comment(config)| <= 65535)
                && (r == MetadataTooLong <==> log.headers == 1 && (|config.iface| > 65535 || |Comment(config)| > 65535))
                && (r == Done <==> log.headers == 2 && synced)
    {
      hide Image, Describes, ValidLog, TotalsOf, SizeOf, EntryBlock, SectionBlock, InterfaceBlock, Comment, ValidEntry;
      HeaderImages(config);
      if active || sequence >= MAX_SEGMENTS {
        return SegmentLimit;
      }
      if !created {
        return OpenFailed;
      }
      active, file, bytes := true, [], 0;
      packets, captured, original, truncated := 0, 0, 0, 0;
      log := Log(0, []);
      var ok := Emit(SectionBlock());
      if !ok {
        return QuotaExhausted;
      }
      log := Log(1, []);
      if |config.iface| > 65535 || |Comment(config)| > 65535 {
        return MetadataTooLong;
      }
      ok := Emit(InterfaceBlock(config));
      if !ok {
        return QuotaExhausted;
      }
      log := Log(2, []);
      return if synced then Done else SyncFailed;
    }

    /** `packet`: rejected, over budget, or appended as one block. */
    method Record(micros: nat, data: seq<Byte>, length: nat) returns (r: Outcome)
      requires Valid() && active
      requires micros < 0x1_0000_0000_0000_0000 && length < 0x1_0000_0000
      modifies this
      ensures Valid() && active && segments == old(segments) && published == old(published) && total == old(total)
      ensures r == InvalidLength <==> |data| > config.snaplen || |data| > length
      ensures r == Done ==> log == old(log).(entries := old(log.entries) + [Packet(micros, data, length)])
      ensures r != Done ==> log == old(log) && file == old(file)
      ensures r == Done || r == InvalidLength || r == QuotaExhausted
      ensures r == QuotaExhausted <==>
                |data| <= config.snaplen && |data| <= length
                && old(total) + old(bytes) + |EntryBlock(Packet(micros, data, length))| > config.byteBudget
      ensures bytes == old(bytes) + if r == Done then |EntryBlock(Packet(micros, data, length))| else 0
      ensures sequence == old(sequence) && logs == old(logs)
    {
      hide Image, Describes, ValidLog, TotalsOf, SizeOf, EntryBlock, SectionBlock, InterfaceBlock, Comment, ValidEntry;
      if |data| > config.snaplen || |data| > length {
        return InvalidLength;
      }
      var e := Packet(micros, data, length);
      PacketIsValid(config, e);
      var ok := Emit(EntryBlock(e));
      if !ok {
        return QuotaExhausted;
      }
      Appended(config, log, e);
      log := log.(entries := log.entries + [e]);
      packets, captured, original := packets + 1, captured + |data|, original + length;
      truncated := truncated + if |data| < length then 1 else 0;
      return Done;
    }

    /** `close`: the statistics block, then the file is published under a new
        number without replacing anything. */
    method Close(now: nat, received: Option<nat>, dropped: Option<nat>, synced: bool, linked: bool) returns (r: Outcome)
      requires Valid()
      requires ValidEntry(config, Statistics(now, received, dropped))
      modifies this
      ensures Valid()
      ensures !old(active) ==> r == Done && published == old(published) && segments == old(segments)
      ensures old(active) ==>
                r == if old(total) + old(bytes) + |EntryBlock(Statistics(now, received, dropped))| > config.byteBudget then QuotaExhausted
                     else if !synced then SyncFailed else if !linked then FinalizeFailed else Done
      ensures old(active) && r == Done ==>
                && !active
                && total == old(total) + old(bytes) + |EntryBlock(Statistics(now, received, dropped))|
                && sequence == old(sequence) + 1
                && published == old(published) + [old(file) + EntryBlock(Statistics(now, received, dropped))]
                && logs == old(logs) + [old(log).(entries := old(log.entries) + [Statistics(now, received, dropped)])]
                && segments == old(segments) + [Segment(old(sequence), |published[old(sequence)]|, old(packets),
                                                        old(captured), old(original), old(truncated))]
      ensures r != Done ==> published == old(published) && segments == old(segments) && logs == old(logs)
    {
      hide Image, Describes, ValidLog, TotalsOf, SizeOf, EntryBlock, SectionBlock, InterfaceBlock, Comment, ValidEntry;
      if !active {
        return Done;
      }
      var e := Statistics(now, received, dropped);
      var ok := Emit(EntryBlock(e));
      if !ok {
        return QuotaExhausted;
      }
      Appended(config, log, e);
      log := log.(entries := log.entries + [e]);
      if !synced {
        return SyncFailed;
      }
      active := false;
      if !linked {
        return FinalizeFailed;
      }
      assert Describes(config, log, file, Segment(sequence, bytes, packets, captured, original, truncated)) by {
        DescribesFile(config, log, file, Segment(sequence, bytes, packets, captured, original, truncated));
      }
      published, logs := published + [file], logs + [log];
      var s := Segment(sequence, bytes, packets, captured, original, truncated);
      SizeAppended(segments, s);
      segments, sequence := segments + [s], sequence + 1;
      total, bytes := total + bytes, 0;
      return Done;
    }
  }

  lemma HeaderImages(c: Config)
    ensures Image(c, Log(0, [])) == [] && ValidLog(c, Log(0, []))
    ensures Image(c, Log(1, [])) == SectionBlock() && ValidLog(c, Log(1, []))
    ensures Image(c, Log(2, [])) == SectionBlock() + InterfaceBlock(c)
    ensures |c.iface| <= 65535 && |Comment(c)| <= 65535 ==> ValidLog(c, Log(2, []))
    ensures TotalsOf([]) == Totals(0, 0, 0, 0)
  {
    hide SectionBlock, InterfaceBlock, Comment;
  }

  lemma PacketIsValid(c: Config, e: Entry)
    requires e.Packet? && e.micros < 0x1_0000_0000_0000_0000 && |e.data| <= c.snaplen && |e.data| <= e.original < 0x1_0000_0000
    ensures ValidEntry(c, e)
  {
  }

  lemma DescribesFile(c: Config, l: Log, file: seq<Byte>, s: Segment)
    requires ValidLog(c, l) && l.headers >= 1 && file == Image(c, l) && s.size == |file|
    requires Totals(s.packets, s.captured, s.original, s.truncated) == TotalsOf(l.entries)
    ensures Describes(c, l, file, s)
  {
    hide Image, TotalsOf, ValidLog;
  }

  lemma Appended(c: Config, l: Log, e: Entry)
    requires ValidLog(c, l) && ValidEntry(c, e) && l.headers >= 1
    ensures var n := l.(entries := l.entries + [e]);
            && Image(c, n) == Image(c, l) + EntryBlock(e)
            && ValidLog(c, n)
            && (e.Statistics? ==> TotalsOf(n.entries) == TotalsOf(l.entries))
            && (e.Packet? ==>
                  TotalsOf(n.entries) == Totals(TotalsOf(l.entries).packets + 1, TotalsOf(l.entries).captured + |e.data|,
                                                TotalsOf(l.entries).original + e.original,
                                                TotalsOf(l.entries).truncated + if |e.data| < e.original then 1 else 0))
  {
    hide EntryBlock, SectionBlock, InterfaceBlock, Comment;
    var es := l.entries + [e];
    assert es[..|es| - 1] == l.entries && es[|es| - 1] == e;
    assert Entries(es) == Entries(l.entries) + EntryBlock(e);
  }

  lemma SizeAppended(segments: seq<Segment>, s: Segment)
    ensures SizeOf(segments + [s]) == SizeOf(segments) + s.size
  {
    var t := segments + [s];
    assert t[..|t| - 1] == segments;
  }

  lemma {:induction false} RowsCountPackets(c: Config, es: seq<Entry>, messages: bool)
    ensures |Rows(c, es, messages)| == TotalsOf(es).packets
  {
    hide File, ExpectedRow;
    if es != [] {
      RowsCountPackets(c, es[..|es| - 1], messages);
    }
  }

  /** A published segment is accepted by the packet index exactly when its `open`
      had written both header blocks and it holds at most a million blocks; then
      the decoded packet count is the one in the manifest, and the rows are the
      recorded packets in order. */
  lemma PublishedDecodes(c: Config, l: Log, file: seq<Byte>, s: Segment, limit: nat, messages: bool)
    requires Describes(c, l, file, s) && 1 <= c.snaplen <= 65535 && limit <= MAX_ROWS
    ensures Decode(file, limit, messages).Some? <==> l.headers == 2 && (|l.entries| + 2 <= MAX_BLOCKS || l.entries == [])
    ensures var d := Decode(file, limit, messages);
            d.Some? ==> && d.value.packetCount == s.packets
                        && d.value.rows == Take(Rows(c, l.entries, messages), limit)
                        && d.value.omitted == s.packets - |d.value.rows|
  {
    hide SectionBlock, InterfaceBlock, Entries, Decode, Rows, TotalsOf, Comment;
    RowsCountPackets(c, l.entries, messages);
    if l.headers == 2 {
      RoundTrip(c, l.entries, limit, messages);
    } else {
      assert Image(c, l) == SectionBlock() + Entries(l.entries);
      HeaderlessRejected(c, l.entries, limit, messages);
    }
  }

  lemma InterfaceSize(c: Config)
    ensures 88 <= |InterfaceBlock(c)| <= 94 + |c.iface| + |Comment(c)|
  {
    hide Put, Ascii;
    assert |Suffix| == 47;
  }

  lemma PlainStatisticsSize(now: nat)
    ensures |EntryBlock(Statistics(now, None, None))| == 28
  {
    hide Block;
  }

  lemma PacketSize(micros: nat, data: seq<Byte>, length: nat)
    ensures |EntryBlock(Packet(micros, data, length))| == 32 + |data| + Gap(|data|)
  {
    hide Block;
  }

  /** What the capture manager hands to a worker. */
  ghost predicate Managed(c: Config) {
    c.snaplen == 65535 && c.byteBudget >= 262144 && |c.iface| <= 65535 && |Comment(c)| <= 65535
  }

  method FillStep(w: Writer, size: nat)
    requires w.Valid() && w.active && w.sequence == 0 && w.total == 0
    requires w.config.snaplen == 65535 && size <= 65504 && size % 4 == 0
    requires w.bytes + 32 + size <= w.config.byteBudget
    modifies w
    ensures w.Valid() && w.active && w.sequence == 0 && w.total == 0
    ensures w.bytes == old(w.bytes) + 32 + size
  {
    hide EntryBlock, Image, Describes, SizeOf, TotalsOf, ValidLog;
    PacketSize(0, Zeros(size), size);
    var r := w.Record(0, Zeros(size), size);
  }

  /** In every configuration of the manager, packets and a close can leave room for a section
      block and a small packet but not for both header blocks. */
  method Fill(c: Config) returns (w: Writer)
    requires Managed(c)
    ensures fresh(w) && w.Valid() && w.config == c && !w.active && w.sequence == 1
    ensures 104 <= c.byteBudget - w.total < 108
  {
    hide EntryBlock, Image, Describes, SizeOf, TotalsOf, ValidLog, InterfaceBlock, SectionBlock, Comment;
    w := new Writer(c);
    InterfaceSize(c);
    var r := w.Open(true, true);
    HeaderSize(c);
    assert w.bytes == |Image(c, Log(2, []))|;
    while c.byteBudget - 132 - w.bytes >= 65536
      invariant w.Valid() && w.active && w.config == c && w.sequence == 0 && w.total == 0
      invariant c.byteBudget - 132 - w.bytes >= 32 && w.bytes % 4 == 0
      decreases c.byteBudget - w.bytes
    {
      FillStep(w, 32736);
    }
    FillStep(w, (c.byteBudget - 132 - w.bytes - 32) / 4 * 4);
    PlainStatisticsSize(0);
    r := w.Close(0, None, None, true, true);
  }

  lemma HeaderSize(c: Config)
    ensures |Image(c, Log(2, []))| == 28 + |InterfaceBlock(c)|
  {
    hide InterfaceBlock, SectionBlock;
  }

  /** In every configuration of the manager the writer can publish a segment that the packet
      index refuses: a rotation closes a segment, opening the next one runs out of budget after
      the section block, the worker goes on, and that segment is closed as well. */
  method UnreadableSegment(c: Config, limit: nat, messages: bool) returns (w: Writer)
    requires Managed(c) && limit <= MAX_ROWS
    ensures fresh(w) && w.Valid() && w.config == c && |w.published| == |w.segments| == 2
    ensures Decode(w.published[1], limit, messages) == None
  {
    hide Decode, InterfaceBlock, EntryBlock, Comment;
    w := Fill(c);
    InterfaceSize(c);
    var r := w.Open(true, true);
    PlainStatisticsSize(0);
    r := w.Close(0, None, None, true, true);
    PublishedDecodes(c, w.logs[1], w.published[1], w.segments[1], limit, messages);
  }

  /** In every configuration of the manager the crash scanner can miss a whole packet: the same
      failing open, then one frame of at most 44 bytes, and nothing more is written. */
  method UnscannedPacket(c: Config, micros: nat, data: seq<Byte>, length: nat) returns (w: Writer)
    requires Managed(c) && micros < 0x1_0000_0000_0000_0000 && |data| <= 44 && |data| <= length < 0x1_0000_0000
    ensures fresh(w) && w.Valid() && w.config == c && w.active && w.log == Log(1, [Packet(micros, data, length)])
    ensures GreatestBoundary(BlocksOf(c, w.log), |w.file|, |w.file|)
    ensures !GreatestBoundary(BlocksOf(c, w.log), |w.file|, ValidPrefix(w.file, 0, Fresh))
  {
    hide InterfaceBlock, EntryBlock, Comment, GreatestBoundary, BlocksOf, ValidPrefix, Image, Describes, SizeOf, TotalsOf, ValidLog,
      SectionBlock, ValidEntry;
    w := Fill(c);
    InterfaceSize(c);
    var r := w.Open(true, true);
    LengthAfterSection(c, w.log);
    PacketSize(micros, data, length);
    r := w.Record(micros, data, length);
    assert w.log.entries == [Packet(micros, data, length)];
    MissedPacket(c, w.log, w.file);
  }

  lemma MissedPacket(c: Config, l: Log, file: seq<Byte>)
    requires Scannable(c, l) && l.headers == 1 && |l.entries| == 1 && l.entries[0].Packet? && file == Image(c, l)
    ensures GreatestBoundary(BlocksOf(c, l), |file|, |file|)
    ensures !GreatestBoundary(BlocksOf(c, l), |file|, ValidPrefix(file, 0, Fresh))
  {
    hide BlocksOf, Image, ValidPrefix, ValidLog, GreatestBoundary, Entries;
    EveryBlock(c, l);
    LengthAfterSection(c, l);
    assert l.entries[..1] == l.entries && file[..|file|] == file;
    CrashPrefix(c, l, |file|);
  }

  lemma LengthAfterSection(c: Config, l: Log)
    requires l.headers == 1
    ensures |Image(c, l)| == 28 + |Entries(l.entries)|
  {
    hide SectionBlock, Entries;
  }

  lemma EveryBlock(c: Config, l: Log)
    requires l.headers <= 2
    ensures GreatestBoundary(BlocksOf(c, l), |Image(c, l)|, |Image(c, l)|)
  {
    hide BlocksOf, Image, Concat;
    var bs := BlocksOf(c, l);
    FileBlocks(c, l);
    assert bs[..|bs|] == bs && EndsAt(bs, |bs|, |Image(c, l)|, |Image(c, l)|);
  }

  /** The budget holds over the whole life of a writer: what is published and what
      is being written never exceed it together. */
  lemma BudgetHolds(w: Writer)
    requires w.Valid()
    ensures SizeOf(w.segments) + (if w.active then |w.file| else 0) <= w.config.byteBudget
    ensures forall i :: 0 <= i < |w.segments| ==> w.segments[i].size == |w.published[i]|
  {
  }
}
