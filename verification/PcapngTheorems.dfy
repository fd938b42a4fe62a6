/** Writer, decoder and crash scanner agree byte for byte. */
module PcapngTheorems {
  import opened Bytes
  import opened Headers
  import opened Options
  import opened Pcapng

  // ----- reading back single fields -----

  lemma FieldAt(b: seq<Byte>, n: nat, v: nat)
    requires n + 4 <= |b| && v < 0x1_0000_0000
    requires b[n..n + 4] == Put(v, 4)
    ensures Le32(b, n) == v
  {
    RadixValues();
    GetPutFits(v, 4);
  }

  lemma ShortFieldAt(b: seq<Byte>, n: nat, v: nat)
    requires n + 2 <= |b| && v < 0x1_0000
    requires b[n..n + 2] == Put(v, 2)
    ensures Le16(b, n) == v
  {
    RadixValues();
    GetPutFits(v, 2);
  }

  lemma BlockFields(kind: nat, body: seq<Byte>)
    requires kind < 0x1_0000_0000 && |body| + 12 < 0x1_0000_0000
    ensures var b := Block(kind, body);
            && Le32(b, 0) == kind
            && Le32(b, 4) == |b|
            && Le32(b, |b| - 4) == |b|
            && b[8..8 + |body|] == body
  {
    var b := Block(kind, body);
    assert b[0..4] == Put(kind, 4);
    assert b[4..8] == Put(|body| + 12, 4);
    assert b[|b| - 4..|b| - 4 + 4] == Put(|body| + 12, 4);
    FieldAt(b, 0, kind);
    FieldAt(b, 4, |b|);
    FieldAt(b, |b| - 4, |b|);
  }

  lemma BodyField(b: seq<Byte>, body: seq<Byte>, n: nat)
    requires n + 4 <= |body| && 8 + |body| <= |b| && b[8..8 + |body|] == body
    ensures Le32(b, 8 + n) == Le32(body, n)
  {
    hide Get, Radix;
    SubSlice(b, 8, 8 + |body|, n, n + 4);
  }

  /** A well-formed block standing at `offset` is the one that is read there. */
  lemma BlockFound(bytes: seq<Byte>, offset: nat, kind: nat, body: seq<Byte>)
    requires kind < 0x1_0000_0000 && |body| % 4 == 0 && |body| + 12 <= MAX_BLOCK
    requires offset + |body| + 12 <= |bytes|
    requires bytes[offset..offset + |body| + 12] == Block(kind, body)
    ensures BlockAt(bytes, offset) == Some(Block(kind, body))
  {
    hide Get, Put, Radix, Block;
    var b := Block(kind, body);
    assert Le32(bytes, offset + 4) == |b| by {
      BlockFields(kind, body);
      SubSlice(bytes, offset, offset + |b|, 4, 8);
    }
    hide Le32;
  }

  /** A block that the file ends inside of is not read. */
  lemma BlockCut(bytes: seq<Byte>, offset: nat, kind: nat, body: seq<Byte>)
    requires kind < 0x1_0000_0000 && |body| + 12 < 0x1_0000_0000
    requires offset <= |bytes| < offset + |body| + 12
    requires bytes[offset..] == Block(kind, body)[..|bytes| - offset]
    ensures BlockAt(bytes, offset) == None
  {
    if |bytes| - offset >= 12 {
      BlockFields(kind, body);
      var b := Block(kind, body);
      hide Get, Put, Radix, Block;
      SubSlice(bytes, offset, |bytes|, 4, 8);
      SubSlice(b, 0, |bytes| - offset, 4, 8);
      assert bytes[offset..|bytes|] == bytes[offset..] && b[0..|bytes| - offset] == b[..|bytes| - offset];
      assert Le32(bytes, offset + 4) == Le32(b, 4) == |b|;
    }
  }

  // ----- the two header blocks -----

  lemma SectionFields()
    ensures var b := SectionBlock();
            && Le32(b, 0) == SECTION && Le32(b, |b| - 4) == |b|
            && Le32(b, 8) == BYTE_ORDER && Le32(b, 12) == 1
  {
    hide Put, Get, Block, Radix, Le32;
    var body, version, size := SectionBody(), Put(1, 2), Put(0xffff_ffff_ffff_ffff, 8);
    BlockFields(SECTION, body);
    Parts(Put(BYTE_ORDER, 4), version, Put(0, 2), size);
    FieldAt(body, 0, BYTE_ORDER);
    assert body[4..8] == body[4..6] + body[6..8];
    VersionOne();
    FieldAt(body, 4, 1);
    BodyField(SectionBlock(), body, 0);
    BodyField(SectionBlock(), body, 4);
  }

  /** Major version 1, minor version 0 read as one field. */
  lemma VersionOne()
    ensures Put(1, 2) + Put(0, 2) == Put(1, 4) && Put(1, 2) == [1, 0]
  {
    assert Put(1, 4) == [1, 0, 0, 0];
  }

  lemma SectionConsumed(p: Parser, offset: nat, limit: nat, messages: bool)
    requires !p.section
    ensures Consume(p, SectionBlock(), offset, limit, messages) == Some(p.(section := true, blocks := p.blocks + 1))
    ensures Inspect(Fresh, SectionBlock()) == Some(Scanner(true, false))
  {
    hide Put, Get, Block, Radix, SectionBlock, Le32;
    SectionFields();
  }

  lemma OptionFields(b: seq<Byte>, i: nat, code: nat, value: seq<Byte>)
    requires code < 0x1_0000 && |value| < 0x1_0000
    requires i + |OptionField(code, value)| <= |b|
    requires b[i..i + |OptionField(code, value)|] == OptionField(code, value)
    ensures Le16(b, i) == code && Le16(b, i + 2) == |value|
    ensures b[i + 4..i + 4 + |value|] == value
  {
    var o := OptionField(code, value);
    hide Get, Put, Pad, Radix;
    assert o[0..2] == Put(code, 2) && o[2..4] == Put(|value|, 2) && o[4..4 + |value|] == value;
    SubSlice(b, i, i + |o|, 0, 2);
    SubSlice(b, i, i + |o|, 2, 4);
    SubSlice(b, i, i + |o|, 4, 4 + |value|);
    ShortFieldAt(b, i, code);
    ShortFieldAt(b, i + 2, |value|);
  }

  /** The decoder steps over one option that the writer emits. */
  lemma OptionSkipped(b: seq<Byte>, i: nat, code: nat, value: seq<Byte>)
    requires 0 < code < 0x1_0000 && code != 14 && |value| < 0x1_0000
    requires code == 9 ==> value == [6]
    requires i + |OptionField(code, value)| + 4 <= |b|
    requires b[i..i + |OptionField(code, value)|] == OptionField(code, value)
    ensures OptionsOk(b, i) == OptionsOk(b, i + |OptionField(code, value)|)
  {
    hide Get, Put, Pad, Radix, OptionField, Le16;
    OptionFields(b, i, code, value);
    if code == 9 {
      assert b[i + 4..i + 4 + 1][0] == 6;
    }
  }

  lemma EndOfOptions(b: seq<Byte>, i: nat)
    requires i + 8 <= |b| && b[i..i + 4] == Put(0, 4)
    ensures OptionsOk(b, i)
  {
    assert Put(0, 4) == [0, 0, 0, 0] && Put(0, 2) == [0, 0];
    assert b[i..i + 2] == b[i..i + 4][0..2] && b[i + 2..i + 2 + 2] == b[i..i + 4][2..4];
    ShortFieldAt(b, i, 0);
    ShortFieldAt(b, i + 2, 0);
  }

  lemma InterfaceOptionsRead(c: Config, b: seq<Byte>)
    requires UsableConfig(c)
    requires |b| == 16 + |InterfaceOptions(c)| + 4
    requires b[16..16 + |InterfaceOptions(c)|] == InterfaceOptions(c)
    ensures OptionsOk(b, 16)
  {
    hide Get, Put, Pad, Radix, OptionField, Le16, OptionsOk, Comment;
    var name, note, unit := OptionField(2, c.iface), OptionField(3, Comment(c)), OptionField(9, [6]);
    PartsInside(b, 16, name, note, unit, Put(0, 4));
    OptionSkipped(b, 16, 2, c.iface);
    OptionSkipped(b, 16 + |name|, 3, Comment(c));
    OptionSkipped(b, 16 + |name| + |note|, 9, [6]);
    EndOfOptions(b, 16 + |name| + |note| + |unit|);
  }

  lemma InterfaceFields(c: Config)
    requires UsableConfig(c)
    ensures var b := InterfaceBlock(c);
            && 20 <= |b| <= MAX_BLOCK
            && Le32(b, 0) == INTERFACE && Le32(b, |b| - 4) == |b|
            && b[8] == 1 && b[9] == 0
            && Le32(b, 12) == c.snaplen
            && OptionsOk(b, 16)
  {
    hide Put, Get, Block, Radix, InterfaceOptions, Le32, OptionsOk, Comment;
    var body, b, opts := InterfaceBody(c), InterfaceBlock(c), InterfaceOptions(c);
    OptionsSize(c);
    BlockFields(INTERFACE, body);
    Parts(Put(1, 2), Put(0, 2), Put(c.snaplen, 4), opts);
    VersionOne();
    assert b[8] == b[8..8 + |body|][0] == body[0..2][0] && b[9] == b[8..8 + |body|][1] == body[0..2][1];
    FieldAt(body, 4, c.snaplen);
    BodyField(b, body, 4);
    SubSlice(b, 8, 8 + |body|, 8, 8 + |opts|);
    InterfaceOptionsRead(c, b);
  }

  lemma OptionsSize(c: Config)
    requires UsableConfig(c)
    ensures |InterfaceOptions(c)| + 20 <= MAX_BLOCK
  {
    hide OptionField, Put, Comment;
  }

  lemma InterfaceConsumed(c: Config, p: Parser, offset: nat, limit: nat, messages: bool)
    requires UsableConfig(c) && p.section && !p.iface
    ensures Consume(p, InterfaceBlock(c), offset, limit, messages)
            == Some(p.(iface := true, snaplen := c.snaplen, blocks := p.blocks + 1))
    ensures |InterfaceBlock(c)| <= MAX_BLOCK
    ensures Inspect(Scanner(true, false), InterfaceBlock(c)) == Some(Scanner(true, true))
  {
    hide Put, Get, Block, Radix, InterfaceBlock, Le32, OptionsOk;
    InterfaceFields(c);
  }

  // ----- packets and statistics -----

  function ExpectedRow(e: Entry, index: nat, offset: nat, messages: bool): Row
    requires e.Packet?
  {
    Row(index, offset, e.micros, |e.data|, e.original, |e.data| < e.original, HeadersOf(e.data, messages))
  }

  lemma PacketLayout(e: Entry)
    requires e.Packet?
    ensures var body := PacketBody(e);
            && body[0..4] == Put(0, 4)
            && body[4..8] == Put(e.micros / 0x1_0000_0000, 4)
            && body[8..12] == Put(e.micros, 4)
            && body[12..16] == Put(|e.data|, 4)
            && body[16..20] == Put(e.original, 4)
            && body[20..20 + |e.data|] == e.data
  {
    hide Put, Pad;
    var body := PacketBody(e);
    var hi, lo, size, original, rest :=
      Put(e.micros / 0x1_0000_0000, 4), Put(e.micros, 4), Put(|e.data|, 4), Put(e.original, 4), Pad(e.data);
    var tail := size + (original + rest);
    Parts(Put(0, 4), hi, lo, tail);
    assert tail == size + (original + (rest + []));
    Parts(size, original, rest, []);
    assert body[12..|body|] == tail;
    SubSlice(body, 12, |body|, 0, 4);
    SubSlice(body, 12, |body|, 4, 8);
    SubSlice(body, 12, |body|, 8, 8 + |e.data|);
    SubSlice(tail, 8, |tail|, 0, |e.data|);
    assert tail[8..|tail|] == rest;
  }

  lemma PacketFields(c: Config, e: Entry)
    requires e.Packet? && ValidEntry(c, e) && c.snaplen <= 65535
    ensures var b := EntryBlock(e);
            && |b| == 32 + |e.data| + Gap(|e.data|)
            && Le32(b, 0) == PACKET && Le32(b, |b| - 4) == |b| && Le32(b, 8) == 0
            && Le32(b, 12) * 0x1_0000_0000 + Le32(b, 16) == e.micros
            && Le32(b, 20) == |e.data| && Le32(b, 24) == e.original
            && b[28..28 + |e.data|] == e.data
  {
    hide Put, Get, Block, Radix, Le32, Pad, PacketBody;
    var body, b := PacketBody(e), EntryBlock(e);
    BlockFields(PACKET, body);
    PacketLayout(e);
    SubSlice(b, 8, 8 + |body|, 20, 20 + |e.data|);
    FieldAt(body, 0, 0);
    FieldAt(body, 4, e.micros / 0x1_0000_0000);
    FieldAt(body, 12, |e.data|);
    FieldAt(body, 16, e.original);
    LowHalf(body, e.micros);
    BodyField(b, body, 0);
    BodyField(b, body, 4);
    BodyField(b, body, 8);
    BodyField(b, body, 12);
    BodyField(b, body, 16);
  }

  lemma LowHalf(body: seq<Byte>, micros: nat)
    requires |body| >= 12 && body[8..8 + 4] == Put(micros, 4)
    ensures Le32(body, 8) == micros % 0x1_0000_0000
  {
    RadixValues();
    GetPut(micros, 4);
  }

  lemma StatisticsFields(e: Entry)
    requires e.Statistics?
    ensures var b := EntryBlock(e);
            && 28 <= |b| <= 52
            && Le32(b, 0) == STATISTICS && Le32(b, |b| - 4) == |b| && Le32(b, 8) == 0
  {
    hide Put, Get, Block, Radix, Le32, Counter;
    var body := StatisticsBody(e);
    BlockFields(STATISTICS, body);
    assert body[0..4] == Put(0, 4);
    FieldAt(body, 0, 0);
    BodyField(EntryBlock(e), body, 0);
  }

  function AfterEntry(p: Parser, e: Entry, offset: nat, limit: nat, messages: bool): Parser {
    if e.Statistics? then p.(blocks := p.blocks + 1)
    else p.(blocks := p.blocks + 1, packets := p.packets + 1,
            rows := if |p.rows| < limit then p.rows + [ExpectedRow(e, p.packets, offset, messages)] else p.rows)
  }

  lemma EntryConsumed(c: Config, e: Entry, p: Parser, offset: nat, limit: nat, messages: bool)
    requires ValidEntry(c, e) && c.snaplen <= 65535
    requires p.section && p.iface && p.snaplen == c.snaplen
    ensures Consume(p, EntryBlock(e), offset, limit, messages) == Some(AfterEntry(p, e, offset, limit, messages))
    ensures Inspect(Scanner(true, true), EntryBlock(e)) == Some(Scanner(true, true))
    ensures |EntryBlock(e)| <= MAX_BLOCK
  {
    hide Put, Get, Block, Radix, EntryBlock, Le32, HeadersOf;
    if e.Packet? {
      PacketFields(c, e);
    } else {
      StatisticsFields(e);
    }
  }

  /** Without an interface block nothing that follows is accepted. */
  lemma EntryRejected(e: Entry, p: Parser, offset: nat, limit: nat, messages: bool)
    requires p.section && !p.iface
    ensures Consume(p, EntryBlock(e), offset, limit, messages) == None
  {
    var b, kind := EntryBlock(e), if e.Packet? then PACKET else STATISTICS;
    assert b[0..4] == Put(kind, 4);
    FieldAt(b, 0, kind);
  }

  lemma EntryFound(c: Config, e: Entry, bytes: seq<Byte>, offset: nat)
    requires ValidEntry(c, e) && c.snaplen <= 65535
    requires offset + |EntryBlock(e)| <= |bytes|
    requires bytes[offset..offset + |EntryBlock(e)|] == EntryBlock(e)
    ensures BlockAt(bytes, offset) == Some(EntryBlock(e))
  {
    if e.Packet? {
      BlockFound(bytes, offset, PACKET, PacketBody(e));
    } else {
      BlockFound(bytes, offset, STATISTICS, StatisticsBody(e));
    }
  }

  // ----- whole files -----

  lemma {:induction false} EntriesGrow(es: seq<Entry>, k: nat)
    requires k <= |es|
    ensures Entries(es[..k]) <= Entries(es)
  {
    if k == |es| {
      assert es[..k] == es;
    } else {
      EntriesGrow(es[..|es| - 1], k);
      assert es[..|es| - 1][..k] == es[..k];
    }
  }

  /** The file after `k` entries is a prefix of the whole file. */
  lemma FileGrows(c: Config, es: seq<Entry>, k: nat)
    requires k <= |es|
    ensures File(c, es[..k]) <= File(c, es)
    ensures k < |es| ==> File(c, es[..k + 1]) == File(c, es[..k]) + EntryBlock(es[k])
  {
    hide Put, Block, SectionBlock, InterfaceBlock, EntryBlock;
    EntriesGrow(es, k);
    if k < |es| {
      assert es[..k + 1][..k] == es[..k] && es[..k + 1][k] == es[k];
      assert Entries(es[..k + 1]) == Entries(es[..k]) + EntryBlock(es[k]);
    }
  }

  lemma EntryPlace(c: Config, es: seq<Entry>, k: nat)
    requires k < |es|
    ensures var off := |File(c, es[..k])|;
            && off + |EntryBlock(es[k])| <= |File(c, es)|
            && File(c, es)[off..off + |EntryBlock(es[k])|] == EntryBlock(es[k])
            && |File(c, es[..k + 1])| == off + |EntryBlock(es[k])|
  {
    hide File, EntryBlock;
    FileGrows(c, es, k);
    FileGrows(c, es, k + 1);
    var bytes, pre, next := File(c, es), File(c, es[..k]), File(c, es[..k + 1]);
    assert bytes[|pre|..|next|] == next[|pre|..] == EntryBlock(es[k]);
  }

  /** One row for each packet, numbered in order and placed at its own block. */
  function Rows(c: Config, es: seq<Entry>, messages: bool): (r: seq<Row>)
    ensures |r| <= |es|
  {
    if es == [] then []
    else
      var before, e := es[..|es| - 1], es[|es| - 1];
      var r := Rows(c, before, messages);
      if e.Packet? then r + [ExpectedRow(e, |r|, |File(c, before)|, messages)] else r
  }

  function Take<T>(s: seq<T>, n: nat): (t: seq<T>)
    ensures |t| == if n <= |s| then n else |s|
  {
    if n <= |s| then s[..n] else s
  }

  function ParserAfter(c: Config, es: seq<Entry>, limit: nat, messages: bool): Parser {
    var rows := Rows(c, es, messages);
    Parser(true, true, c.snaplen, |rows|, |es| + 2, Take(rows, limit))
  }

  lemma DecodeStep(bytes: seq<Byte>, offset: nat, p: Parser, b: seq<Byte>, n: Parser, limit: nat, messages: bool)
    requires offset < |bytes| && p.blocks < MAX_BLOCKS
    requires BlockAt(bytes, offset) == Some(b)
    requires Consume(p, b, offset, limit, messages) == Some(n)
    ensures DecodeFrom(bytes, offset, p, limit, messages) == DecodeFrom(bytes, offset + |b|, n, limit, messages)
  {
    hide BlockAt, Consume;
  }

  lemma ParserSteps(c: Config, es: seq<Entry>, k: nat, limit: nat, messages: bool)
    requires k < |es|
    ensures ParserAfter(c, es[..k + 1], limit, messages)
            == AfterEntry(ParserAfter(c, es[..k], limit, messages), es[k], |File(c, es[..k])|, limit, messages)
  {
    hide File, EntryBlock, ExpectedRow;
    var next, rows := es[..k + 1], Rows(c, es[..k], messages);
    assert next[..|next| - 1] == es[..k] && next[|next| - 1] == es[k];
    assert Rows(c, next, messages) ==
           if es[k].Packet? then rows + [ExpectedRow(es[k], |rows|, |File(c, es[..k])|, messages)] else rows;
  }

  lemma {:induction false} DecodeEntries(c: Config, es: seq<Entry>, k: nat, limit: nat, messages: bool)
    requires UsableConfig(c) && ValidEntries(c, es) && k <= |es|
    ensures |File(c, es[..k])| <= |File(c, es)|
    ensures DecodeFrom(File(c, es), |File(c, es[..k])|, ParserAfter(c, es[..k], limit, messages), limit, messages)
            == if |es| == k || |es| + 2 <= MAX_BLOCKS then Some(ParserAfter(c, es, limit, messages)) else None
    decreases |es| - k
  {
    hide File, EntryBlock, Consume, BlockAt, AfterEntry, Rows, Comment;
    FileGrows(c, es, k);
    if k == |es| {
      assert es[..k] == es;
    } else {
      var p, off := ParserAfter(c, es[..k], limit, messages), |File(c, es[..k])|;
      EntryPlace(c, es, k);
      if p.blocks < MAX_BLOCKS {
        EntryFound(c, es[k], File(c, es), off);
        EntryConsumed(c, es[k], p, off, limit, messages);
        ParserSteps(c, es, k, limit, messages);
        DecodeStep(File(c, es), off, p, EntryBlock(es[k]), ParserAfter(c, es[..k + 1], limit, messages), limit, messages);
        DecodeEntries(c, es, k + 1, limit, messages);
      }
    }
  }

  lemma NoEntries(c: Config, es: seq<Entry>, limit: nat, messages: bool)
    ensures File(c, es[..0]) == SectionBlock() + InterfaceBlock(c)
    ensures ParserAfter(c, es[..0], limit, messages) == Parser(true, true, c.snaplen, 0, 2, [])
  {
    hide SectionBlock, InterfaceBlock;
    assert Entries(es[..0]) == [] && Rows(c, es[..0], messages) == [];
  }

  lemma HeadersDecoded(c: Config, es: seq<Entry>, limit: nat, messages: bool)
    requires UsableConfig(c)
    ensures File(c, es[..0]) == SectionBlock() + InterfaceBlock(c)
    ensures |File(c, es[..0])| <= |File(c, es)|
    ensures DecodeFrom(File(c, es), 0, Start, limit, messages)
            == DecodeFrom(File(c, es), |File(c, es[..0])|, ParserAfter(c, es[..0], limit, messages), limit, messages)
  {
    hide Block, Consume, BlockAt, Put, SectionBody, InterfaceBody, Comment, Entries, DecodeFrom, ParserAfter;
    NoEntries(c, es, limit, messages);
    var bytes, p, q := File(c, es), Start.(section := true, blocks := 1), ParserAfter(c, es[..0], limit, messages);
    var first, second := SectionBlock(), InterfaceBlock(c);
    assert bytes == first + (second + (Entries(es) + []));
    Parts(first, second, Entries(es), []);
    BlockFound(bytes, 0, SECTION, SectionBody());
    SectionConsumed(Start, 0, limit, messages);
    DecodeStep(bytes, 0, Start, first, p, limit, messages);
    InterfaceConsumed(c, p, 28, limit, messages);
    BlockFound(bytes, 28, INTERFACE, InterfaceBody(c));
    DecodeStep(bytes, 28, p, second, q, limit, messages);
  }

  /** Round trip: whatever sequence of packets and statistics was written after a
      complete header decodes, within the block limit and only within it, to
      exactly those packets, numbered in order, each at the offset of its own block. */
  lemma RoundTrip(c: Config, es: seq<Entry>, limit: nat, messages: bool)
    requires UsableConfig(c) && ValidEntries(c, es) && limit <= MAX_ROWS
    ensures var rows := Rows(c, es, messages);
            Decode(File(c, es), limit, messages)
            == if |es| + 2 <= MAX_BLOCKS || es == []
               then Some(Decoded(Take(rows, limit), |rows|, |rows| - |Take(rows, limit)|)) else None
  {
    hide File, DecodeFrom, Rows, Comment;
    HeadersDecoded(c, es, limit, messages);
    DecodeEntries(c, es, 0, limit, messages);
  }

  /** A segment closed after `open` stopped between its two header blocks never decodes. */
  lemma HeaderlessRejected(c: Config, es: seq<Entry>, limit: nat, messages: bool)
    requires ValidEntries(c, es) && c.snaplen <= 65535
    ensures Decode(SectionBlock() + Entries(es), limit, messages) == None
  {
    hide Block, EntryBlock, Consume, BlockAt, Put, SectionBody;
    var bytes, p := SectionBlock() + Entries(es), Start.(section := true, blocks := 1);
    assert bytes[0..28] == SectionBlock();
    BlockFound(bytes, 0, SECTION, SectionBody());
    SectionConsumed(Start, 0, limit, messages);
    DecodeStep(bytes, 0, Start, SectionBlock(), p, limit, messages);
    if es != [] {
      FirstEntry(es);
      assert bytes[28..28 + |EntryBlock(es[0])|] == Entries(es)[..|EntryBlock(es[0])|];
      EntryFound(c, es[0], bytes, 28);
      EntryRejected(es[0], p, 28, limit, messages);
      assert DecodeFrom(bytes, 28, p, limit, messages) == None;
    }
  }

  lemma FirstEntry(es: seq<Entry>)
    requires es != []
    ensures EntryBlock(es[0]) <= Entries(es)
  {
    hide EntryBlock;
    EntriesGrow(es, 1);
    assert es[..1][..0] == [] && es[..1][0] == es[0];
    assert Entries(es[..1]) == EntryBlock(es[0]);
  }

  // ----- crash prefixes -----

  function Concat(blocks: seq<seq<Byte>>): (b: seq<Byte>)
  {
    if blocks == [] then [] else Concat(blocks[..|blocks| - 1]) + blocks[|blocks| - 1]
  }

  function BlocksOf(c: Config, l: Log): (r: seq<seq<Byte>>)
    requires l.headers <= 2
    ensures |r| == l.headers + |l.entries|
  {
    [SectionBlock(), InterfaceBlock(c)][..l.headers] + seq(|l.entries|, i requires 0 <= i < |l.entries| => EntryBlock(l.entries[i]))
  }

  /** A file is the concatenation of its blocks, however many were written. */
  lemma {:induction false} FileBlocks(c: Config, l: Log)
    requires l.headers <= 2
    ensures Concat(BlocksOf(c, l)) == Image(c, l)
    decreases |l.entries|
  {
    hide SectionBlock, InterfaceBlock, EntryBlock, Block, Put;
    var bs := BlocksOf(c, l);
    if l.entries == [] {
      assert bs == [SectionBlock(), InterfaceBlock(c)][..l.headers];
      if l.headers >= 1 {
        ConcatStep(bs, 0);
        assert bs[..1][0] == SectionBlock();
      }
      if l.headers == 2 {
        ConcatStep(bs, 1);
      }
      assert bs[..l.headers] == bs;
    } else {
      var before := l.(entries := l.entries[..|l.entries| - 1]);
      assert bs[..|bs| - 1] == BlocksOf(c, before);
      FileBlocks(c, before);
    }
  }

  lemma {:induction false} ConcatGrows(bs: seq<seq<Byte>>, k: nat)
    requires k <= |bs|
    ensures Concat(bs[..k]) <= Concat(bs)
  {
    if k == |bs| {
      assert bs[..k] == bs;
    } else {
      ConcatGrows(bs[..|bs| - 1], k);
      assert bs[..|bs| - 1][..k] == bs[..k];
    }
  }

  lemma ConcatStep(bs: seq<seq<Byte>>, k: nat)
    requires k < |bs|
    ensures Concat(bs[..k + 1]) == Concat(bs[..k]) + bs[k]
  {
    assert bs[..k + 1][..k] == bs[..k] && bs[..k + 1][k] == bs[k];
  }

  function FirstPacket(es: seq<Entry>): (n: nat)
    ensures n <= |es| && (forall i :: 0 <= i < n ==> es[i].Statistics?) && (n < |es| ==> es[n].Packet?)
  {
    if es == [] || es[0].Packet? then 0 else 1 + FirstPacket(es[1..])
  }

  /** How many blocks of a file the scanner can count: without an interface block it stops at
      the first packet. */
  function Countable(l: Log): (n: nat)
    ensures n <= l.headers + |l.entries|
  {
    l.headers + if l.headers == 1 then FirstPacket(l.entries) else |l.entries|
  }

  function ScannerAfter(l: Log, k: nat): Scanner {
    Scanner(k >= 1, l.headers == 2 && k >= 2)
  }

  ghost predicate Scannable(c: Config, l: Log) {
    ValidLog(c, l) && 1 <= c.snaplen <= 65535
  }

  /** Without an interface block the scanner counts statistics but no packet. */
  lemma BareEntry(e: Entry)
    ensures Inspect(Scanner(true, false), EntryBlock(e)) == if e.Packet? then None else Some(Scanner(true, false))
  {
    hide Block, Put;
    if e.Packet? {
      assert EntryBlock(e)[0..4] == Put(PACKET, 4) by { BlockStarts(PACKET, PacketBody(e)); }
      FieldAt(EntryBlock(e), 0, PACKET);
    } else {
      StatisticsFields(e);
    }
  }

  lemma BlockStarts(kind: nat, body: seq<Byte>)
    ensures Block(kind, body)[0..4] == Put(kind, 4)
  {
  }

  /** Block `k` of a written file, complete and countable, moves the scanner on. */
  lemma BlockScanned(c: Config, l: Log, k: nat, bytes: seq<Byte>, offset: nat)
    requires Scannable(c, l) && k < Countable(l)
    requires offset + |BlocksOf(c, l)[k]| <= |bytes|
    requires bytes[offset..offset + |BlocksOf(c, l)[k]|] == BlocksOf(c, l)[k]
    ensures BlockAt(bytes, offset) == Some(BlocksOf(c, l)[k])
    ensures |BlocksOf(c, l)[k]| >= 12
    ensures Inspect(ScannerAfter(l, k), BlocksOf(c, l)[k]) == Some(ScannerAfter(l, k + 1))
  {
    hide Block, Put, Inspect, BlockAt, SectionBody, InterfaceBody, Comment, Consume, EntryBlock;
    if k == 0 {
      BlockFound(bytes, offset, SECTION, SectionBody());
      SectionConsumed(Start, 0, 0, false);
    } else if k < l.headers {
      InterfaceConsumed(c, Start.(section := true), 28, 0, false);
      BlockFound(bytes, offset, INTERFACE, InterfaceBody(c));
    } else {
      var e := l.entries[k - l.headers];
      EntryFound(c, e, bytes, offset);
      if l.headers == 2 {
        EntryConsumed(c, e, Parser(true, true, c.snaplen, 0, 2, []), 0, 0, false);
      } else {
        StatisticsFields(e);
        BareEntry(e);
      }
    }
  }

  /** The packet at which the scanner stops, complete or not. */
  lemma PacketNotScanned(c: Config, l: Log, bytes: seq<Byte>, offset: nat)
    requires Scannable(c, l) && l.headers == 1 && FirstPacket(l.entries) < |l.entries|
    requires offset <= |bytes|
    requires var b := EntryBlock(l.entries[FirstPacket(l.entries)]);
             if offset + |b| <= |bytes| then bytes[offset..offset + |b|] == b else bytes[offset..] == b[..|bytes| - offset]
    ensures ValidPrefix(bytes, offset, Scanner(true, false)) == offset
  {
    hide Block, Put, Inspect, BlockAt, SectionBody, InterfaceBody, Comment, Consume, EntryBlock;
    var e := l.entries[FirstPacket(l.entries)];
    if offset + |EntryBlock(e)| <= |bytes| {
      EntryFound(c, e, bytes, offset);
      BareEntry(e);
    } else {
      EntryMissing(c, e, bytes, offset);
    }
  }

  lemma EntryMissing(c: Config, e: Entry, bytes: seq<Byte>, offset: nat)
    requires ValidEntry(c, e) && c.snaplen <= 65535
    requires offset <= |bytes| < offset + |EntryBlock(e)|
    requires bytes[offset..] == EntryBlock(e)[..|bytes| - offset]
    ensures BlockAt(bytes, offset) == None
  {
    EntryConsumed(c, e, Parser(true, true, c.snaplen, 0, 2, []), 0, 0, false);
    if e.Packet? {
      BlockCut(bytes, offset, PACKET, PacketBody(e));
    } else {
      BlockCut(bytes, offset, STATISTICS, StatisticsBody(e));
    }
  }

  lemma BlockMissing(c: Config, l: Log, k: nat, bytes: seq<Byte>, offset: nat)
    requires Scannable(c, l) && k < l.headers + |l.entries|
    requires offset <= |bytes| < offset + |BlocksOf(c, l)[k]|
    requires bytes[offset..] == BlocksOf(c, l)[k][..|bytes| - offset]
    ensures BlockAt(bytes, offset) == None
  {
    hide Block, Put, BlockAt, SectionBody, InterfaceBody, Comment, Consume, EntryBlock, Inspect;
    if k == 0 {
      BlockCut(bytes, offset, SECTION, SectionBody());
    } else if k < l.headers {
      InterfaceConsumed(c, Start.(section := true), 28, 0, false);
      BlockCut(bytes, offset, INTERFACE, InterfaceBody(c));
    } else {
      EntryMissing(c, l.entries[k - l.headers], bytes, offset);
    }
  }

  /** `n` is the end of the last block that lies wholly inside the first `cut` bytes. */
  ghost predicate GreatestBoundary(bs: seq<seq<Byte>>, cut: nat, n: nat) {
    exists k :: 0 <= k <= |bs| && EndsAt(bs, k, cut, n)
  }

  ghost predicate EndsAt(bs: seq<seq<Byte>>, k: nat, cut: nat, n: nat)
    requires k <= |bs|
  {
    && n == |Concat(bs[..k])| <= cut
    && (k < |bs| ==> cut < |Concat(bs[..k + 1])|)
  }

  /** Block `k` stands in the file where the blocks before it end. */
  lemma BlockPlace(c: Config, l: Log, k: nat)
    requires l.headers <= 2 && k < l.headers + |l.entries|
    ensures var off, next := |Concat(BlocksOf(c, l)[..k])|, |Concat(BlocksOf(c, l)[..k + 1])|;
            && next == off + |BlocksOf(c, l)[k]| <= |Image(c, l)|
            && Image(c, l)[off..next] == BlocksOf(c, l)[k]
  {
    hide BlocksOf, Image, Concat;
    FileBlocks(c, l);
    var bs := BlocksOf(c, l);
    ConcatStep(bs, k);
    ConcatGrows(bs, k + 1);
    assert Image(c, l)[..|Concat(bs[..k + 1])|] == Concat(bs[..k + 1]);
  }

  lemma {:induction false} ScanFromBlock(c: Config, l: Log, cut: nat, k: nat)
    requires Scannable(c, l) && k <= Countable(l)
    requires |Concat(BlocksOf(c, l)[..k])| <= cut <= |Image(c, l)|
    ensures GreatestBoundary(BlocksOf(c, l)[..Countable(l)], cut,
                             ValidPrefix(Image(c, l)[..cut], |Concat(BlocksOf(c, l)[..k])|, ScannerAfter(l, k)))
    decreases Countable(l) - k
  {
    hide BlocksOf, Image, Concat, BlockAt, Inspect, Comment, FirstPacket, EntryBlock;
    FileBlocks(c, l);
    var bs, bytes, off, m := BlocksOf(c, l), Image(c, l)[..cut], |Concat(BlocksOf(c, l)[..k])|, Countable(l);
    assert bs[..m][..k] == bs[..k];
    if k == m {
      ScanStops(c, l, cut);
      assert EndsAt(bs[..m], k, cut, off);
    } else {
      BlockPlace(c, l, k);
      assert bs[..m][..k + 1] == bs[..k + 1];
      var next := off + |bs[k]|;
      if next <= cut {
        assert bytes[off..next] == bs[k];
        BlockScanned(c, l, k, bytes, off);
        ScanFromBlock(c, l, cut, k + 1);
      } else {
        assert bytes[off..] == bs[k][..cut - off];
        BlockMissing(c, l, k, bytes, off);
        assert EndsAt(bs[..m], k, cut, off);
      }
    }
  }

  /** After the last countable block nothing more is counted. */
  lemma ScanStops(c: Config, l: Log, cut: nat)
    requires Scannable(c, l)
    requires |Concat(BlocksOf(c, l)[..Countable(l)])| <= cut <= |Image(c, l)|
    ensures var off := |Concat(BlocksOf(c, l)[..Countable(l)])|;
            ValidPrefix(Image(c, l)[..cut], off, ScannerAfter(l, Countable(l))) == off
  {
    hide Image, Concat, BlockAt, Inspect, Comment, EntryBlock, SectionBlock, InterfaceBlock;
    var bs, bytes, m := BlocksOf(c, l), Image(c, l)[..cut], Countable(l);
    var off := |Concat(bs[..m])|;
    if m == |bs| {
      FileBlocks(c, l);
      assert bs[..m] == bs;
      EndNotFound(bytes, off);
    } else {
      BlockPlace(c, l, m);
      if off + |bs[m]| <= cut {
        assert bytes[off..off + |bs[m]|] == bs[m];
      } else {
        assert bytes[off..] == Image(c, l)[off..off + |bs[m]|][..cut - off];
      }
      PacketNotScanned(c, l, bytes, off);
    }
  }

  lemma EndNotFound(bytes: seq<Byte>, offset: nat)
    requires offset == |bytes|
    ensures BlockAt(bytes, offset) == None
  {
  }

  /** The scanner reports the greatest block boundary not past the cut, among the blocks that it
      can count at all. */
  lemma ScannedPrefix(c: Config, l: Log, cut: nat)
    requires Scannable(c, l) && cut <= |Image(c, l)|
    ensures GreatestBoundary(BlocksOf(c, l)[..Countable(l)], cut, ValidPrefix(Image(c, l)[..cut], 0, Fresh))
  {
    hide BlocksOf, Image;
    assert Concat(BlocksOf(c, l)[..0]) == [];
    ScanFromBlock(c, l, cut, 0);
  }

  /** Some packet of a file without interface block lies wholly before the cut. */
  ghost predicate WholePacket(l: Log, cut: nat) {
    exists i :: 0 <= i < |l.entries| && l.entries[i].Packet? && 28 + |Entries(l.entries[..i + 1])| <= cut
  }

  lemma ConcatOrdered(bs: seq<seq<Byte>>, i: nat, j: nat)
    requires i <= j <= |bs|
    ensures |Concat(bs[..i])| <= |Concat(bs[..j])|
  {
    ConcatGrows(bs[..j], i);
    assert bs[..j][..i] == bs[..i];
  }

  /** Where entry `i` of a file without interface block ends. */
  lemma EntryEnd(c: Config, l: Log, i: nat)
    requires l.headers == 1 && i < |l.entries|
    ensures |Concat(BlocksOf(c, l)[..i + 2])| == 28 + |Entries(l.entries[..i + 1])|
  {
    hide EntryBlock, InterfaceBlock, Concat;
    var part := Log(1, l.entries[..i + 1]);
    FileBlocks(c, part);
    assert BlocksOf(c, l)[..i + 2] == BlocksOf(c, part);
  }

  lemma StoppedShort(c: Config, l: Log, cut: nat, n: nat)
    requires l.headers == 1 && FirstPacket(l.entries) < |l.entries|
    requires GreatestBoundary(BlocksOf(c, l)[..Countable(l)], cut, n)
    ensures GreatestBoundary(BlocksOf(c, l), cut, n) <==> cut < |Concat(BlocksOf(c, l)[..Countable(l) + 1])|
  {
    hide BlocksOf, Concat, FirstPacket;
    var bs, m := BlocksOf(c, l), Countable(l);
    assert |bs[m]| > 0 by { PacketBlock(c, l); }
    OneBlockLess(bs, m, cut, n);
  }

  lemma PacketBlock(c: Config, l: Log)
    requires l.headers == 1 && FirstPacket(l.entries) < |l.entries|
    ensures |BlocksOf(c, l)[Countable(l)]| > 0
  {
    hide EntryBlock, InterfaceBlock, SectionBlock;
  }

  /** The last of the first `m` boundaries is the last of all exactly when the next block is not whole. */
  lemma OneBlockLess(bs: seq<seq<Byte>>, m: nat, cut: nat, n: nat)
    requires m < |bs| && |bs[m]| > 0 && GreatestBoundary(bs[..m], cut, n)
    ensures GreatestBoundary(bs, cut, n) <==> cut < |Concat(bs[..m + 1])|
  {
    hide Concat;
    var k :| 0 <= k <= m && EndsAt(bs[..m], k, cut, n);
    assert bs[..m][..k] == bs[..k] && (k < m ==> bs[..m][..k + 1] == bs[..k + 1]);
    if cut < |Concat(bs[..m + 1])| {
      assert EndsAt(bs, k, cut, n);
    } else {
      ConcatStep(bs, m);
      ConcatOrdered(bs, k, m);
      forall j | 0 <= j <= |bs| ensures !EndsAt(bs, j, cut, n) {
        if j > m {
          ConcatOrdered(bs, m + 1, j);
        } else {
          ConcatOrdered(bs, j + 1, m + 1);
        }
      }
    }
  }

  /** Crash prefix: cut any file of the writer at any byte. The scanner reports the end of the
      last block that survived whole, unless the interface block was never written and a packet
      survived; then, and only then, it reports less. */
  lemma CrashPrefix(c: Config, l: Log, cut: nat)
    requires Scannable(c, l) && cut <= |Image(c, l)|
    ensures GreatestBoundary(BlocksOf(c, l), cut, ValidPrefix(Image(c, l)[..cut], 0, Fresh))
            <==> l.headers != 1 || !WholePacket(l, cut)
  {
    hide BlocksOf, Image, Entries, EntryBlock, GreatestBoundary, Concat;
    var bs, n, m := BlocksOf(c, l), ValidPrefix(Image(c, l)[..cut], 0, Fresh), Countable(l);
    ScannedPrefix(c, l, cut);
    if m == |bs| {
      assert bs[..m] == bs;
    } else {
      StoppedShort(c, l, cut, n);
      EntryEnd(c, l, m - 1);
      forall i | 0 <= i < |l.entries| && l.entries[i].Packet? && 28 + |Entries(l.entries[..i + 1])| <= cut
        ensures |Concat(bs[..m + 1])| <= cut
      {
        EntryEnd(c, l, i);
        ConcatOrdered(bs, m + 1, i + 2);
      }
    }
  }

  lemma {:induction false} ScanThrough(c: Config, l: Log, bytes: seq<Byte>, k: nat)
    requires Scannable(c, l) && k <= Countable(l) && Image(c, l) <= bytes
    requires |Concat(BlocksOf(c, l)[..k])| <= |Image(c, l)|
    ensures ValidPrefix(bytes, |Concat(BlocksOf(c, l)[..k])|, ScannerAfter(l, k)) >= |Concat(BlocksOf(c, l)[..Countable(l)])|
    decreases Countable(l) - k
  {
    hide BlocksOf, Image, Concat, BlockAt, Inspect, Comment, FirstPacket, EntryBlock;
    if k < Countable(l) {
      BlockPlace(c, l, k);
      var bs, off := BlocksOf(c, l), |Concat(BlocksOf(c, l)[..k])|;
      assert bytes[off..off + |bs[k]|] == Image(c, l)[off..off + |bs[k]|];
      BlockScanned(c, l, k, bytes, off);
      ScanThrough(c, l, bytes, k + 1);
    }
  }

  /** Whatever follows in the file, such as the remains of a failed write and blocks after them, the
      scanner counts every whole block before it that it can count at all. */
  lemma DamageKeepsPrefix(c: Config, l: Log, damage: seq<Byte>)
    requires Scannable(c, l)
    ensures ValidPrefix(Image(c, l) + damage, 0, Fresh) >= |Concat(BlocksOf(c, l)[..Countable(l)])|
    ensures l.headers != 1 ==> ValidPrefix(Image(c, l) + damage, 0, Fresh) >= |Image(c, l)|
  {
    hide BlocksOf, Image;
    assert Concat(BlocksOf(c, l)[..0]) == [];
    ScanThrough(c, l, Image(c, l) + damage, 0);
    FileBlocks(c, l);
    assert l.headers != 1 ==> BlocksOf(c, l)[..Countable(l)] == BlocksOf(c, l);
  }

  // ----- decoder and scanner on arbitrary bytes -----

  lemma ConsumedIsCounted(p: Parser, b: seq<Byte>, offset: nat, limit: nat, messages: bool)
    requires |b| >= 12
    requires Consume(p, b, offset, limit, messages).Some?
    ensures var n := Consume(p, b, offset, limit, messages).value;
            Inspect(Scanner(p.section, p.iface), b) == Some(Scanner(n.section, n.iface))
  {
  }

  lemma {:induction false} DecodedIsValid(bytes: seq<Byte>, offset: nat, p: Parser, limit: nat, messages: bool)
    requires offset <= |bytes| && DecodeFrom(bytes, offset, p, limit, messages).Some?
    ensures ValidPrefix(bytes, offset, Scanner(p.section, p.iface)) == |bytes|
    decreases |bytes| - offset
  {
    if offset < |bytes| {
      var b := BlockAt(bytes, offset).value;
      ConsumedIsCounted(p, b, offset, limit, messages);
      DecodedIsValid(bytes, offset + |b|, Consume(p, b, offset, limit, messages).value, limit, messages);
    }
  }

  /** Any file the decoder accepts is wholly valid to the crash scanner. */
  lemma AcceptedIsWhollyValid(bytes: seq<Byte>, limit: nat, messages: bool)
    requires Decode(bytes, limit, messages).Some?
    ensures ValidPrefix(bytes, 0, Fresh) == |bytes|
  {
    DecodedIsValid(bytes, 0, Start, limit, messages);
  }
}
