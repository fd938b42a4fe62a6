/** The terminal recording: an append-only log of numbered records, and the
    paged reader that works on any prefix of it. */
module Recording {
  import opened Bytes
  import opened Options

  const MAGIC: seq<Byte> := [71, 76, 84, 69, 82, 77, 49, 0] // "GLTERM1\0"
  const MAX_DATA := 65536
  const PAGE_RECORDS := 128
  const PAGE_BYTES := 65536
  const OUTPUT := 1

  /** One call of `append`: record type, nanoseconds since the anchor, payload. */
  datatype Record = Record(kind: nat, time: nat, data: seq<Byte>)

  /** Output bytes appended by `rs`. */
  function OutputBytes(rs: seq<Record>): nat {
    if rs == [] then 0
    else OutputBytes(rs[..|rs| - 1]) + if rs[|rs| - 1].kind == OUTPUT then |rs[|rs| - 1].data| else 0
  }

  function Header(r: Record, sequence: nat, output: nat): (h: seq<Byte>)
    ensures |h| == 32
  {
    Put(r.kind, 4) + (Put(|r.data|, 4) + (Put(sequence, 8) + (Put(r.time, 8) + Put(output, 8))))
  }

  function LogBytes(rs: seq<Record>): seq<Byte> {
    if rs == [] then []
    else
      var before, r := rs[..|rs| - 1], rs[|rs| - 1];
      LogBytes(before) + (Header(r, |before|, OutputBytes(before)) + r.data)
  }

  function File(rs: seq<Record>): seq<Byte> {
    MAGIC + LogBytes(rs)
  }

  ghost predicate ValidRecord(r: Record) {
    1 <= r.kind <= 5 && |r.data| <= MAX_DATA && r.time < 0x1_0000_0000_0000_0000
  }

  /** A log that `append` can have produced; no file reaches two to the 63 bytes. */
  ghost predicate ValidLog(rs: seq<Record>) {
    (forall r :: r in rs ==> ValidRecord(r)) && |File(rs)| < 0x8000_0000_0000_0000
  }

  // ----- the writer -----

  /** A record that reached the file, and how many of its bytes were written: a failing write
      may leave any part of it behind. */
  datatype Attempt = Attempt(record: Record, written: nat)

  function FullSize(r: Record): nat { 32 + |r.data| }

  predicate Entire(t: Attempt) { t.written == FullSize(t.record) }

  /** The records that were written whole. */
  function Recorded(ts: seq<Attempt>): (rs: seq<Record>)
    ensures |rs| <= |ts| && forall r :: r in rs ==> exists t :: t in ts && t.record == r
  {
    if ts == [] then []
    else
      var rs, t := Recorded(ts[..|ts| - 1]), ts[|ts| - 1];
      if Entire(t) then rs + [t.record] else rs
  }

  /** The bytes of `r` when it follows the records `rs`. */
  function Encoded(rs: seq<Record>, r: Record): (b: seq<Byte>)
    ensures |b| == FullSize(r)
  {
    Header(r, |rs|, OutputBytes(rs)) + r.data
  }

  /** Each attempt is numbered by the whole records before it and stands after all earlier bytes. */
  function FileAfter(ts: seq<Attempt>): seq<Byte> {
    if ts == [] then MAGIC
    else
      var before, t := ts[..|ts| - 1], ts[|ts| - 1];
      FileAfter(before) + if t.written <= FullSize(t.record) then Encoded(Recorded(before), t.record)[..t.written] else []
  }

  ghost predicate ValidAttempts(ts: seq<Attempt>) {
    forall t :: t in ts ==> ValidRecord(t.record) && t.written <= FullSize(t.record)
  }

  datatype Appended = Written | InvalidRecord | QuotaExhausted | WriteFailed

  datatype Closing = Closed | SyncFailed | PublishFailed | DirectoryFailed

  class Recorder {
    /** The file under its final name, once it is there. */
    var published: Option<seq<Byte>>
    const budget: nat
    var active: bool
    var file: seq<Byte>
    var size: nat
    var sequence: nat
    var output: nat
    ghost var attempts: seq<Attempt>

    ghost function Log(): seq<Record>
      reads this
    {
      Recorded(attempts)
    }

    ghost predicate Valid()
      reads this
    {
      && file == FileAfter(attempts)
      && size == |File(Log())| <= (if budget < 8 then 8 else budget)
      && sequence == |Log()|
      && output == OutputBytes(Log())
      && ValidAttempts(attempts)
      && (published.Some? ==> !active && published.value == file)
    }

    constructor (limit: nat)
      ensures Valid() && active && budget == limit && attempts == [] && published == None
    {
      budget, active, published := limit, true, None;
      file, size, sequence, output, attempts := MAGIC, 8, 0, 0, [];
    }

    /** `append`: an invalid or too long record changes nothing. Otherwise one record goes out with
        the next number and the output offset before it. When the write fails after `written` bytes,
        these stay in the file, but size, number and offset are those of before. */
    method Append(kind: nat, data: seq<Byte>, time: nat, written: nat) returns (r: Appended)
      requires Valid() && time < 0x1_0000_0000_0000_0000
      modifies this
      ensures Valid() && active == old(active) && published == old(published)
      ensures r == InvalidRecord <==> kind < 1 || kind > 5 || |data| > MAX_DATA || !active
      ensures r == QuotaExhausted <==> r != InvalidRecord && old(size) + 32 + |data| > budget
      ensures r == WriteFailed <==> r != InvalidRecord && r != QuotaExhausted && written < 32 + |data|
      ensures attempts == match r
                          case Written => old(attempts) + [Attempt(Record(kind, time, data), 32 + |data|)]
                          case WriteFailed => old(attempts) + [Attempt(Record(kind, time, data), written)]
                          case _ => old(attempts)
      ensures Log() == old(Log()) + if r == Written then [Record(kind, time, data)] else []
      ensures old(file) <= file
    {
      hide Header, LogBytes, OutputBytes, File, FileAfter, Recorded;
      if kind < 1 || kind > 5 || |data| > MAX_DATA || !active {
        return InvalidRecord;
      }
      if size + 32 + |data| > budget {
        return QuotaExhausted;
      }
      var rec := Record(kind, time, data);
      var b := Header(rec, sequence, output) + data;
      AttemptAdded(attempts, Attempt(rec, if written < |b| then written else |b|));
      if written < |b| {
        attempts, file := attempts + [Attempt(rec, written)], file + b[..written];
        assert Log() == old(Log());
        return WriteFailed;
      }
      LogAppended(Log(), rec);
      attempts := attempts + [Attempt(rec, |b|)];
      file, size, sequence := file + b, size + |b|, sequence + 1;
      if kind == OUTPUT {
        output := output + |data|;
      }
      return Written;
    }

    /** `close`: synchronised, then published under its final name by a link, which never
        replaces a file of that name; the partial name goes last. */
    method Close(synced: bool, linked: bool, unlinked: bool, settled: bool) returns (r: Closing)
      requires Valid()
      modifies this`active, this`published
      ensures Valid()
      ensures !old(active) ==> r == Closed && active == old(active) && published == old(published)
      ensures old(active) ==>
                r == if !synced then SyncFailed else if !linked || !unlinked then PublishFailed
                     else if !settled then DirectoryFailed else Closed
      ensures old(active) ==> active == !synced
      ensures old(active) ==> published == if synced && linked then Some(file) else old(published)
    {
      if !active {
        return Closed;
      }
      if !synced {
        return SyncFailed;
      }
      active := false;
      if !linked {
        return PublishFailed;
      }
      published := Some(file);
      return if !unlinked then PublishFailed else if !settled then DirectoryFailed else Closed;
    }
  }

  lemma AttemptAdded(ts: seq<Attempt>, t: Attempt)
    requires t.written <= FullSize(t.record)
    ensures FileAfter(ts + [t]) == FileAfter(ts) + Encoded(Recorded(ts), t.record)[..t.written]
    ensures Recorded(ts + [t]) == Recorded(ts) + if Entire(t) then [t.record] else []
    ensures Entire(t) ==> Encoded(Recorded(ts), t.record)[..t.written] == Encoded(Recorded(ts), t.record)
  {
    hide Header;
    var next := ts + [t];
    assert next[..|next| - 1] == ts && next[|next| - 1] == t;
  }

  lemma LogAppended(rs: seq<Record>, r: Record)
    ensures File(rs + [r]) == File(rs) + (Header(r, |rs|, OutputBytes(rs)) + r.data)
    ensures OutputBytes(rs + [r]) == OutputBytes(rs) + if r.kind == OUTPUT then |r.data| else 0
  {
    hide Header;
    var next, b := rs + [r], Header(r, |rs|, OutputBytes(rs)) + r.data;
    assert next[..|next| - 1] == rs && next[|next| - 1] == r;
    assert LogBytes(next) == LogBytes(rs) + b;
    Associate(MAGIC, LogBytes(rs), b);
  }

  // ----- the reader -----

  datatype View = View(kind: nat, sequence: nat, time: nat, offset: nat, data: seq<Byte>)

  datatype Item = End | Partial | Bad | Found(view: View)

  function ItemSize(v: View): nat { 32 + |v.data| }

  /** The record at `pos`, when record number `expected` is due. */
  function ItemAt(file: seq<Byte>, pos: nat, expected: nat): (i: Item)
    requires pos <= |file|
    ensures i.Found? ==> pos + ItemSize(i.view) <= |file| && i.view.sequence == expected
  {
    if |file| == pos then End
    else if |file| < pos + 32 then Partial
    else
      var kind, n, sequence := Get(file[pos..pos + 4]), Get(file[pos + 4..pos + 8]), Get(file[pos + 8..pos + 16]);
      if n > MAX_DATA || sequence != expected || kind < 1 || kind > 5 then Bad
      else if |file| < pos + 32 + n then Partial
      else Found(View(kind, sequence, Get(file[pos + 16..pos + 24]), Get(file[pos + 24..pos + 32]),
                      file[pos + 32..pos + 32 + n]))
  }

  datatype Page = Page(records: seq<View>, next: nat, partialTail: bool)

  function DataBytes(vs: seq<View>): nat {
    if vs == [] then 0 else DataBytes(vs[..|vs| - 1]) + |vs[|vs| - 1].data|
  }

  /** Whether the page is full before `v` is added to it. */
  predicate Overflows(p: Page, v: View) {
    DataBytes(p.records) + |v.data| > PAGE_BYTES && p.records != []
  }

  function Extend(p: Page, v: View): Page {
    Page(p.records + [v], v.sequence + 1, false)
  }

  function ReplayFrom(file: seq<Byte>, pos: nat, expected: nat, start: nat, p: Page): (r: Option<Page>)
    requires pos <= |file|
    decreases |file| - pos
  {
    match ItemAt(file, pos, expected)
    case End => Some(p)
    case Partial => Some(p.(partialTail := true))
    case Bad => None
    case Found(v) =>
      if v.sequence < start then ReplayFrom(file, pos + ItemSize(v), expected + 1, start, p)
      else if Overflows(p, v) then Some(p)
      else if |p.records| + 1 >= PAGE_RECORDS then Some(Extend(p, v))
      else ReplayFrom(file, pos + ItemSize(v), expected + 1, start, Extend(p, v))
  }

  function Replay(file: seq<Byte>, start: nat): (r: Option<Page>)
  {
    if |file| < 8 || file[..8] != MAGIC then None else ReplayFrom(file, 8, 0, start, Page([], start, false))
  }

  lemma NoData()
    ensures DataBytes([]) == 0
  {
  }

  lemma DataAdded(vs: seq<View>, v: View)
    ensures DataBytes(vs + [v]) == DataBytes(vs) + |v.data|
  {
    assert (vs + [v])[..|vs|] == vs;
  }

  /** The reader's loop. */
  method ReplayFile(file: seq<Byte>, start: nat) returns (r: Option<Page>)
    ensures r == Replay(file, start)
  {
    hide ItemAt, DataBytes;
    if |file| < 8 || file[..8] != MAGIC {
      return None;
    }
    var records, next, bytes, expected, pos := [], start, 0, 0, 8;
    assert DataBytes([]) == 0 by { NoData(); }
    while true
      invariant pos <= |file| && bytes == DataBytes(records)
      invariant Replay(file, start) == ReplayFrom(file, pos, expected, start, Page(records, next, false))
      decreases |file| - pos
    {
      var i := ItemAt(file, pos, expected);
      match i {
        case End => break;
        case Partial => return Some(Page(records, next, true));
        case Bad => return None;
        case Found(v) =>
          pos, expected := pos + ItemSize(v), expected + 1;
          if v.sequence >= start {
            if bytes + |v.data| > PAGE_BYTES && records != [] {
              break;
            }
            DataAdded(records, v);
            records, next, bytes := records + [v], v.sequence + 1, bytes + |v.data|;
            if |records| >= PAGE_RECORDS {
              break;
            }
          }
      }
    }
    return Some(Page(records, next, false));
  }

  // ----- following `next` terminates on any file -----

  lemma {:induction false} NextGrows(file: seq<Byte>, pos: nat, expected: nat, start: nat, p: Page)
    requires pos <= |file| && expected <= pos
    requires p.records == [] || start < p.next <= expected
    requires ReplayFrom(file, pos, expected, start, p).Some?
    ensures var q := ReplayFrom(file, pos, expected, start, p).value;
            q.records != [] ==> start < q.next <= |file|
    decreases |file| - pos
  {
    hide ItemAt, Overflows;
    var i := ItemAt(file, pos, expected);
    if i.Found? {
      var v := i.view;
      if v.sequence < start {
        NextGrows(file, pos + ItemSize(v), expected + 1, start, p);
      } else if !Overflows(p, v) && |p.records| + 1 < PAGE_RECORDS {
        NextGrows(file, pos + ItemSize(v), expected + 1, start, Extend(p, v));
      }
    }
  }

  /** A page that holds records moves `next` forward, and never past the file. */
  lemma PageMoves(file: seq<Byte>, start: nat)
    requires Replay(file, start).Some?
    ensures var p := Replay(file, start).value; p.records != [] ==> start < p.next <= |file|
  {
    NextGrows(file, 8, 0, start, Page([], start, false));
  }

  datatype Transcript = Transcript(records: seq<View>, partialTail: bool)

  /** Ask for pages until one is empty; the last page's flag is the result's. */
  ghost function Follow(file: seq<Byte>, start: nat): (r: Option<Transcript>)
    decreases if start <= |file| then |file| - start + 1 else 0
  {
    match Replay(file, start)
    case None => None
    case Some(p) =>
      if p.records == [] then Some(Transcript([], p.partialTail))
      else
        PageMoves(file, start);
        match Follow(file, p.next)
        case None => None
        case Some(t) => Some(Transcript(p.records + t.records, t.partialTail))
  }

  // ----- what a cut log replays to -----

  function ViewOf(rs: seq<Record>, k: nat): View
    requires k < |rs|
  {
    View(rs[k].kind, k, rs[k].time, OutputBytes(rs[..k]), rs[k].data)
  }

  function Views(rs: seq<Record>, lo: nat, hi: nat): (vs: seq<View>)
    requires lo <= hi <= |rs|
    ensures |vs| == hi - lo
  {
    seq(hi - lo, i requires 0 <= i < hi - lo => ViewOf(rs, lo + i))
  }

  /** `m` records of `rs` lie wholly inside the first `cut` bytes of the file. */
  ghost predicate Complete(rs: seq<Record>, cut: nat, m: nat) {
    && m <= |rs|
    && |File(rs[..m])| <= cut
    && (m < |rs| ==> cut < |File(rs[..m + 1])|)
  }

  lemma {:induction false} LogGrows(rs: seq<Record>, k: nat)
    requires k <= |rs|
    ensures LogBytes(rs[..k]) <= LogBytes(rs)
  {
    hide Header;
    if k == |rs| {
      assert rs[..k] == rs;
    } else {
      LogGrows(rs[..|rs| - 1], k);
      assert rs[..|rs| - 1][..k] == rs[..k];
    }
  }

  lemma RecordPlace(rs: seq<Record>, k: nat)
    requires k < |rs|
    ensures var pos := |File(rs[..k])|;
            && File(rs[..k + 1]) == File(rs[..k]) + (Header(rs[k], k, OutputBytes(rs[..k])) + rs[k].data)
            && pos + 32 + |rs[k].data| == |File(rs[..k + 1])| <= |File(rs)|
            && File(rs)[pos..pos + 32 + |rs[k].data|] == Header(rs[k], k, OutputBytes(rs[..k])) + rs[k].data
            && File(rs[..k]) <= File(rs)
  {
    hide Header;
    LogGrows(rs, k);
    LogGrows(rs, k + 1);
    assert rs[..k + 1][..k] == rs[..k] && rs[..k + 1][k] == rs[k];
    var a, b := File(rs[..k]), Header(rs[k], k, OutputBytes(rs[..k])) + rs[k].data;
    assert File(rs[..k + 1]) == a + b;
    assert File(rs)[|a|..|a + b|] == (a + b)[|a|..|a + b|] == b;
  }

  lemma {:induction false} CountsFit(rs: seq<Record>)
    ensures |rs| <= |LogBytes(rs)| && OutputBytes(rs) <= |LogBytes(rs)|
  {
    hide Header;
    if rs != [] {
      CountsFit(rs[..|rs| - 1]);
    }
  }

  lemma HeaderFields(f: seq<Byte>, pos: nat, r: Record, sequence: nat, output: nat)
    requires pos + 32 <= |f| && f[pos..pos + 32] == Header(r, sequence, output)
    requires ValidRecord(r) && sequence < 0x1_0000_0000_0000_0000 && output < 0x1_0000_0000_0000_0000
    ensures Get(f[pos..pos + 4]) == r.kind && Get(f[pos + 4..pos + 8]) == |r.data|
    ensures Get(f[pos + 8..pos + 16]) == sequence
    ensures Get(f[pos + 16..pos + 24]) == r.time && Get(f[pos + 24..pos + 32]) == output
  {
    hide Put, Get, Radix;
    var k, n, s, t, o := Put(r.kind, 4), Put(|r.data|, 4), Put(sequence, 8), Put(r.time, 8), Put(output, 8);
    PartsInside(f, pos, k, n, s, t + o);
    SubSlice(f, pos + 16, pos + 32, 0, 8);
    SubSlice(f, pos + 16, pos + 32, 8, 16);
    assert (t + o)[0..8] == t && (t + o)[8..16] == o;
    RadixValues();
    GetPutFits(r.kind, 4);
    GetPutFits(|r.data|, 4);
    GetPutFits(sequence, 8);
    GetPutFits(r.time, 8);
    GetPutFits(output, 8);
  }

  /** Inside the cut file, record `k` is found when it is complete, and otherwise
      the reader sees the end or a partial tail. */
  lemma ItemInCut(rs: seq<Record>, cut: nat, k: nat)
    requires ValidLog(rs) && cut <= |File(rs)| && k <= |rs| && |File(rs[..k])| <= cut
    ensures var f, pos := File(rs)[..cut], |File(rs[..k])|;
            var whole := k < |rs| && |File(rs[..k + 1])| <= cut;
            && (whole ==> ItemAt(f, pos, k) == Found(ViewOf(rs, k)) && pos + ItemSize(ViewOf(rs, k)) == |File(rs[..k + 1])|)
            && (!whole ==> ItemAt(f, pos, k) == if cut == pos then End else Partial)
  {
    hide Put, Get, Radix, Header, LogBytes, OutputBytes;
    var f, pos := File(rs)[..cut], |File(rs[..k])|;
    if k == |rs| {
      assert rs[..k] == rs;
    } else {
      RecordPlace(rs, k);
      var r, o := rs[k], OutputBytes(rs[..k]);
      CountsFit(rs[..k]);
      if cut >= pos + 32 {
        SubSlice(File(rs), pos, pos + 32 + |r.data|, 0, 32);
        SubSlice(File(rs), pos, pos + 32 + |r.data|, 32, 32 + |r.data|);
        assert (Header(r, k, o) + r.data)[0..32] == Header(r, k, o);
        assert (Header(r, k, o) + r.data)[32..32 + |r.data|] == r.data;
        assert f[pos..pos + 32] == File(rs)[pos..pos + 32];
        HeaderFields(f, pos, r, k, o);
        if cut >= pos + 32 + |r.data| {
          assert f[pos + 32..pos + 32 + |r.data|] == File(rs)[pos + 32..pos + 32 + |r.data|];
        }
      }
    }
  }

  lemma {:induction false} ReplayInCut(rs: seq<Record>, cut: nat, m: nat, k: nat, start: nat, p: Page)
    requires ValidLog(rs) && cut <= |File(rs)| && Complete(rs, cut, m) && k <= m
    requires |File(rs[..k])| <= cut
    requires start <= m && !p.partialTail
    requires if k <= start then p == Page([], start, false) else p == Page(Views(rs, start, k), k, false)
    ensures var r := ReplayFrom(File(rs)[..cut], |File(rs[..k])|, k, start, p);
            && r.Some?
            && start <= r.value.next <= m
            && r.value.records == Views(rs, start, r.value.next)
            && (start == m ==> r.value.partialTail == (cut > |File(rs[..m])|))
            && (start < m ==> start < r.value.next)
    decreases m - k
  {
    hide ItemAt, Overflows, LogBytes, File, OutputBytes;
    ItemInCut(rs, cut, k);
    if k < m {
      CompleteBelow(rs, cut, m, k);
      var v := ViewOf(rs, k);
      if k < start {
        ReplayInCut(rs, cut, m, k + 1, start, p);
      } else {
        assert Extend(p, v) == Page(Views(rs, start, k + 1), k + 1, false);
        assert p.records == [] ==> !Overflows(p, v) by { EmptyPageTakesAny(p, v); }
        if !Overflows(p, v) && |p.records| + 1 < PAGE_RECORDS {
          ReplayInCut(rs, cut, m, k + 1, start, Extend(p, v));
        }
      }
    }
  }

  lemma EmptyPageTakesAny(p: Page, v: View)
    ensures p.records == [] ==> !Overflows(p, v)
  {
  }

  lemma CompleteBelow(rs: seq<Record>, cut: nat, m: nat, k: nat)
    requires Complete(rs, cut, m) && k < m
    ensures |File(rs[..k + 1])| <= cut
  {
    hide LogBytes;
    LogGrows(rs[..m], k + 1);
    assert rs[..m][..k + 1] == rs[..k + 1];
  }

  /** One page of a cut log: the next complete records in order, at least one as
      long as any are left. */
  lemma PageOfCut(rs: seq<Record>, cut: nat, m: nat, start: nat)
    requires ValidLog(rs) && 8 <= cut <= |File(rs)| && Complete(rs, cut, m) && start <= m
    ensures var r := Replay(File(rs)[..cut], start);
            && r.Some?
            && start <= r.value.next <= m && (start < m ==> start < r.value.next)
            && r.value.records == Views(rs, start, r.value.next)
            && (start == m ==> r.value.partialTail == (cut > |File(rs[..m])|))
  {
    hide ReplayFrom, ItemAt, OutputBytes, LogBytes;
    assert File(rs)[..cut][..8] == MAGIC;
    EmptyLog(rs);
    ReplayInCut(rs, cut, m, 0, start, Page([], start, false));
  }

  lemma {:induction false} FollowInCut(rs: seq<Record>, cut: nat, m: nat, start: nat)
    requires ValidLog(rs) && 8 <= cut <= |File(rs)| && Complete(rs, cut, m) && start <= m
    ensures Follow(File(rs)[..cut], start) == Some(Transcript(Views(rs, start, m), cut > |File(rs[..m])|))
    decreases m - start
  {
    hide Replay, File, ViewOf;
    PageOfCut(rs, cut, m, start);
    var p := Replay(File(rs)[..cut], start).value;
    if start < m {
      FollowInCut(rs, cut, m, p.next);
      assert Views(rs, start, p.next) + Views(rs, p.next, m) == Views(rs, start, m);
    }
  }

  /** Replay of a recording cut at any byte after the magic: following `next` from
      0 ends, yields each complete record once, in order and with the number of
      output bytes before it, and flags a partial tail exactly when bytes remain. */
  lemma ReplayIsExact(rs: seq<Record>, cut: nat, m: nat)
    requires ValidLog(rs) && 8 <= cut <= |File(rs)| && Complete(rs, cut, m)
    ensures Follow(File(rs)[..cut], 0) == Some(Transcript(Views(rs, 0, m), cut > |File(rs[..m])|))
  {
    FollowInCut(rs, cut, m, 0);
  }

  /** For every cut there is exactly such a number of complete records. */
  lemma {:induction false} CutHasCount(rs: seq<Record>, cut: nat) returns (m: nat)
    requires 8 <= cut <= |File(rs)|
    ensures Complete(rs, cut, m)
  {
    hide LogBytes;
    EmptyLog(rs);
    m := 0;
    while m < |rs| && |File(rs[..m + 1])| <= cut
      invariant 0 <= m <= |rs| && |File(rs[..m])| <= cut
    {
      m := m + 1;
    }
  }

  lemma EmptyLog(rs: seq<Record>)
    ensures File(rs[..0]) == MAGIC
  {
    assert LogBytes(rs[..0]) == [];
  }

  // ----- failing writes -----

  ghost predicate AllEntire(ts: seq<Attempt>) {
    forall t :: t in ts ==> Entire(t)
  }

  lemma {:induction false} EntireFile(ts: seq<Attempt>)
    requires AllEntire(ts)
    ensures FileAfter(ts) == File(Recorded(ts))
  {
    hide Header;
    if ts == [] {
      EmptyLog([]);
    } else {
      var before, t := ts[..|ts| - 1], ts[|ts| - 1];
      EntireFile(before);
      assert t in ts;
      AttemptAdded(before, t);
      LogAppended(Recorded(before), t.record);
      assert before + [t] == ts;
    }
  }

  lemma RecordedValid(ts: seq<Attempt>)
    requires ValidAttempts(ts)
    ensures forall r :: r in Recorded(ts) ==> ValidRecord(r)
  {
  }

  /** After a failing write, as long as nothing is appended, replay still yields exactly the whole
      records, and flags a partial tail exactly when bytes of the failed one were written. */
  lemma ReplayAfterFailure(ts: seq<Attempt>, t: Attempt)
    requires ValidAttempts(ts + [t]) && AllEntire(ts)
    requires |File(Recorded(ts) + [t.record])| < 0x8000_0000_0000_0000
    ensures var rs := Recorded(ts + [t]);
            Follow(FileAfter(ts + [t]), 0) == Some(Transcript(Views(rs, 0, |rs|), !Entire(t) && t.written > 0))
  {
    hide Header, LogBytes, OutputBytes, Follow, FileAfter, Recorded;
    var rs, r := Recorded(ts), t.record;
    var all := rs + [r];
    EntireFile(ts);
    AttemptAdded(ts, t);
    LogAppended(rs, r);
    assert t in ts + [t] && ValidAttempts(ts);
    RecordedValid(ts);
    assert all[..|rs|] == rs && all[..|rs| + 1] == all;
    var cut, m := |File(rs)| + t.written, if Entire(t) then |rs| + 1 else |rs|;
    assert File(all)[..cut] == FileAfter(ts + [t]);
    ReplayIsExact(all, cut, m);
    SameViews(all, Recorded(ts + [t]), m);
  }

  lemma SameViews(a: seq<Record>, b: seq<Record>, m: nat)
    requires m <= |a| && m <= |b| && a[..m] == b[..m]
    ensures Views(a, 0, m) == Views(b, 0, m)
  {
    hide OutputBytes;
    forall k | 0 <= k < m ensures ViewOf(a, k) == ViewOf(b, k) {
      assert a[..k] == a[..m][..k] == b[..m][..k] == b[..k];
      assert a[k] == a[..m][k] == b[..m][k] == b[k];
    }
  }

  /** A record that is found is found in every longer file. */
  lemma ItemExtends(g: seq<Byte>, f: seq<Byte>, pos: nat, expected: nat)
    requires g <= f && pos <= |g| && ItemAt(g, pos, expected).Found?
    ensures ItemAt(f, pos, expected) == ItemAt(g, pos, expected)
  {
    hide Get;
    forall i, j | 0 <= i <= j <= |g| ensures f[i..j] == g[i..j] {
    }
  }

  lemma {:induction false} SkipsTo(rs: seq<Record>, f: seq<Byte>, k: nat, start: nat)
    requires ValidLog(rs) && File(rs) <= f && k <= |rs| <= start && |File(rs[..k])| <= |File(rs)|
    ensures ReplayFrom(f, |File(rs[..k])|, k, start, Page([], start, false))
            == ReplayFrom(f, |File(rs)|, |rs|, start, Page([], start, false))
    decreases |rs| - k
  {
    hide ItemAt, LogBytes, OutputBytes, Header, Overflows;
    if k == |rs| {
      assert rs[..k] == rs;
    } else {
      RecordPlace(rs, k);
      assert File(rs)[..|File(rs)|] == File(rs);
      ItemInCut(rs, |File(rs)|, k);
      ItemExtends(File(rs), f, |File(rs[..k])|, k);
      SkipsTo(rs, f, k + 1, start);
    }
  }

  /** A kind that was cut after one to three bytes is read together with the next record's. */
  lemma MixedKind(b: seq<Byte>, kind: nat, next: nat, n: nat)
    requires 1 <= n <= 3 && 1 <= next <= 5 && |b| >= 4 && n + 4 <= |b|
    requires b[..n] == Put(kind, 4)[..n] && b[n..n + 4] == Put(next, 4)
    ensures Get(b[0..4]) > 5
  {
    var x := b[0..4];
    assert x[n] == next by {
      assert b[n..n + 4][0] == b[n] && Put(next, 4)[0] == next;
    }
    hide Get, Put;
    assert Get(x) == x[0] as int + 256 * (x[1] as int + 256 * (x[2] as int + 256 * x[3] as int)) by { FourBytes(x); }
  }

  lemma FourBytes(x: seq<Byte>)
    requires |x| == 4
    ensures Get(x) == x[0] as int + 256 * (x[1] as int + 256 * (x[2] as int + 256 * x[3] as int))
  {
    var a, b, c := x[1..], x[2..], x[3..];
    assert a[1..] == b && b[1..] == c && c[1..] == [];
    assert Get(c) == x[3] as int && Get(b) == x[2] as int + 256 * Get(c) && Get(a) == x[1] as int + 256 * Get(b);
  }

  /** Where the torn record stands, the reader finds neither an end nor a record. */
  lemma TornIsBad(rs: seq<Record>, torn: Attempt, next: Record, f: seq<Byte>)
    requires 1 <= torn.written <= 3 && ValidRecord(next)
    requires File(rs) + Encoded(rs, torn.record)[..torn.written] + Encoded(rs, next) <= f
    ensures ItemAt(f, |File(rs)|, |rs|) == Bad
  {
    hide Get, Put, File, OutputBytes;
    var n, pos, a, b := torn.written, |File(rs)|, Encoded(rs, torn.record), Encoded(rs, next);
    var x := f[pos..pos + 8];
    assert x[..n] == a[..n] == Put(torn.record.kind, 4)[..n];
    var g := File(rs) + a[..n] + b;
    SubSlice(f, pos, pos + 8, n, n + 4);
    assert x[n..n + 4] == f[pos + n..pos + n + 4] == g[pos + n..pos + n + 4] == b[..4] == Put(next.kind, 4);
    MixedKind(x, torn.record.kind, next.kind, n);
    assert f[pos..pos + 4] == x[0..4];
  }

  lemma {:induction false} FileAfterGrows(ts: seq<Attempt>, more: seq<Attempt>)
    ensures FileAfter(ts) <= FileAfter(ts + more)
  {
    hide Header, Recorded, Encoded;
    if more == [] {
      assert ts + more == ts;
    } else {
      FileAfterGrows(ts, more[..|more| - 1]);
      assert (ts + more)[..|ts + more| - 1] == ts + more[..|more| - 1];
    }
  }

  /** When a record was torn inside its kind and another one was appended after it, replay of the
      records from there on fails, whatever is appended later. */
  lemma TornThenRefused(ts: seq<Attempt>, torn: Attempt, next: Attempt, more: seq<Attempt>, start: nat)
    requires ValidAttempts(ts + [torn, next]) && AllEntire(ts) && 1 <= torn.written <= 3 && Entire(next)
    requires |File(Recorded(ts))| < 0x8000_0000_0000_0000 && start >= |Recorded(ts)|
    ensures Replay(FileAfter(ts + [torn, next] + more), start) == None
  {
    hide Header, LogBytes, OutputBytes, FileAfter, Recorded, Encoded, ItemAt;
    var rs, f := Recorded(ts), FileAfter(ts + [torn, next] + more);
    assert torn in ts + [torn, next] && next in ts + [torn, next] && ValidAttempts(ts);
    EntireFile(ts);
    RecordedValid(ts);
    AttemptAdded(ts, torn);
    AttemptAdded(ts + [torn], next);
    assert ts + [torn] + [next] == ts + [torn, next];
    assert Recorded(ts + [torn]) == rs;
    FileAfterGrows(ts + [torn, next], more);
    TornIsBad(rs, torn, next.record, f);
    EmptyLog(rs);
    assert File(rs) <= f && f[..8] == MAGIC;
    SkipsTo(rs, f, 0, start);
  }

  /** Any recorder with room, all of whose records are whole, can get there: one byte of a record
      is written, the failure is caught, and the next record is appended. */
  method TornThenContinued(w: Recorder, first: nat, second: nat)
    requires w.Valid() && w.active && AllEntire(w.attempts) && w.size + 32 <= w.budget < 0x8000_0000_0000_0000
    requires first < 0x1_0000_0000_0000_0000 && second < 0x1_0000_0000_0000_0000
    modifies w
    ensures w.Valid() && w.active && |w.Log()| == |old(w.Log())| + 1
    ensures forall start | start >= |old(w.Log())| :: Replay(w.file, start) == None
  {
    hide Replay, FileAfter, Recorded, File, OutputBytes;
    ghost var ts := w.attempts;
    var r := w.Append(3, [], first, 1);
    assert w.Log() == old(w.Log());
    r := w.Append(3, [], second, 32);
    ghost var torn, next := Attempt(Record(3, first, []), 1), Attempt(Record(3, second, []), 32);
    assert w.attempts == ts + [torn, next] && ts + [torn, next] + [] == ts + [torn, next];
    forall start | start >= |old(w.Log())| ensures Replay(w.file, start) == None {
      TornThenRefused(ts, torn, next, [], start);
    }
  }
}
