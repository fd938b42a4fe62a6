/** The collector of message reports. Reports may be lost, repeated or late; every message a
    reporter counted is either missed or was stored once, and what was pruned stays gone. */
module MessageHistory {
  import opened Bytes
  import opened Headers
  import opened MessageReporter

  /** A reporter: run, node, workload instance and reporter epoch. */
  datatype Key = Key(run: string, node: string, instance: string, epoch: seq<Byte>)

  datatype Source = Source(high: nat, missed: nat, evicted: nat)

  datatype Row = Row(key: Key, event: Event, created: int, size: nat)

  /** Rows are in the order of their identifiers. */
  datatype Tables = Tables(sources: map<Key, Source>, rows: seq<Row>)

  const COUNTER_LIMIT := 1_000_000_000_000_000_000
  const MAX_SOURCES := 256
  const MAX_ROWS := 4096
  const MAX_BYTES := 4194304
  const DAY := 86400

  // ----- the report contract -----

  predicate IdentifierOk(id: Identifier) {
    |id.messageId| == 48 && forall k :: 0 <= k < |id.messageId| ==> LowerHex(id.messageId[k])
  }

  ghost predicate ReportOk(r: Report) {
    && Epoch(r.epoch) && |r.events| <= RING
    && r.total < COUNTER_LIMIT && r.evicted < COUNTER_LIMIT && r.total == r.evicted + |r.events|
    && (forall i :: 0 <= i < |r.events| ==>
          r.events[i].sequence == r.evicted + 1 + i && r.events[i].length == 53 && IdentifierOk(r.events[i].id)
          && r.events[i].time < COUNTER_LIMIT)
    && (forall i :: 0 < i < |r.events| ==> r.events[i - 1].time <= r.events[i].time)
  }

  function Digits(n: nat): nat {
    if n < 10 then 1 else 1 + Digits(n / 10)
  }

  /** The length of an event as compact JSON: names and punctuation, then the values. */
  function EventSize(e: Event): nat {
    121 + 2 * |e.id.messageId| + Digits(e.sequence) + Digits(e.length) + Digits(e.time)
    + (if e.kind == Send then 4 else 7) + (if e.id.response then 8 else 7) + (if e.id.alpha then 5 else 4)
  }

  function EventsSize(events: seq<Event>): nat {
    if events == [] then 0 else EventsSize(events[..|events| - 1]) + EventSize(events[|events| - 1]) + 1
  }

  /** The length of a report as compact JSON, a comma counted after every event. */
  function ReportSize(r: Report): nat {
    152 + |r.epoch| + Digits(r.total) + Digits(r.evicted) + EventsSize(r.events)
  }

  const MAX_REPORT := 3500

  lemma {:induction false} DigitsBound(n: nat, limit: nat, k: nat)
    requires k >= 1 && limit == Power10(k) && n < limit
    ensures Digits(n) <= k
    decreases k
  {
    if n >= 10 {
      DigitsBound(n / 10, Power10(k - 1), k - 1);
    }
  }

  function Power10(k: nat): nat {
    if k == 0 then 1 else 10 * Power10(k - 1)
  }

  lemma CounterDigits(n: nat)
    requires n < COUNTER_LIMIT
    ensures Digits(n) <= 18
  {
    assert Power10(6) == 1_000_000 && Power10(12) == 1_000_000_000_000;
    assert Power10(18) == COUNTER_LIMIT;
    DigitsBound(n, COUNTER_LIMIT, 18);
  }

  lemma {:induction false} EventsBound(events: seq<Event>)
    requires forall i :: 0 <= i < |events| ==> EventSize(events[i]) <= 293
    ensures EventsSize(events) <= 294 * |events|
  {
    hide EventSize;
    if events != [] {
      EventsBound(events[..|events| - 1]);
    }
  }

  /** The limit on the serialised report refuses nothing that the other rules accept. */
  lemma ReportFitsLimit(r: Report)
    requires ReportOk(r)
    ensures ReportSize(r) <= MAX_REPORT
  {
    hide Digits, LowerHex;
    CounterDigits(r.total);
    CounterDigits(r.evicted);
    forall i | 0 <= i < |r.events| ensures EventSize(r.events[i]) <= 293 {
      CounterDigits(r.events[i].sequence);
      CounterDigits(r.events[i].time);
      CounterDigits(53);
      assert IdentifierOk(r.events[i].id);
    }
    EventsBound(r.events);
  }

  method Validate(r: Report) returns (ok: bool)
    ensures ok <==> ReportOk(r)
  {
    hide ReportSize, LowerHex;
    if ReportSize(r) > MAX_REPORT {
      if ReportOk(r) {
        ReportFitsLimit(r);
      }
      return false;
    }
    if !Epoch(r.epoch) || |r.events| > RING || r.total >= COUNTER_LIMIT || r.evicted >= COUNTER_LIMIT {
      return false;
    }
    if r.total < r.evicted || r.total - r.evicted != |r.events| {
      return false;
    }
    var expected := r.evicted + 1;
    var previous := 0;
    for i := 0 to |r.events|
      invariant expected == r.evicted + 1 + i
      invariant previous == if i == 0 then 0 else r.events[i - 1].time
      invariant forall k :: 0 <= k < i ==>
        r.events[k].sequence == r.evicted + 1 + k && r.events[k].length == 53 && IdentifierOk(r.events[k].id)
        && r.events[k].time < COUNTER_LIMIT
      invariant forall k :: 0 < k < i ==> r.events[k - 1].time <= r.events[k].time
    {
      var e := r.events[i];
      if e.sequence != expected || !IdentifierOk(e.id) || e.length != 53 || e.time >= COUNTER_LIMIT {
        return false;
      }
      expected := expected + 1;
      if e.time < previous {
        return false;
      }
      previous := e.time;
    }
    ok := true;
  }

  /** A log whose counters and clock still fit the contract's numbers. */
  ghost predicate Fits(log: seq<Event>) {
    |log| < COUNTER_LIMIT && forall i :: 0 <= i < |log| ==> log[i].time < COUNTER_LIMIT
  }

  /** Every report of an honest reporter is accepted by the contract. */
  lemma HonestReportOk(epoch: seq<Byte>, log: seq<Event>, n: nat)
    requires Epoch(epoch) && Honest(log) && Fits(log) && n <= |log|
    ensures ReportOk(ReportAt(epoch, log, n))
  {
    hide Epoch, LowerHex;
    var r := ReportAt(epoch, log, n);
    assert forall i :: 0 <= i < |r.events| ==> r.events[i] == log[r.evicted + i];
  }

  // ----- retention -----

  function TotalSize(rows: seq<Row>): nat {
    if rows == [] then 0 else rows[0].size + TotalSize(rows[1..])
  }

  predicate Overfull(rows: seq<Row>) {
    |rows| > MAX_ROWS || TotalSize(rows) > MAX_BYTES
  }

  /** Rows keep their order; some may be gone. */
  ghost predicate Sublist(s: seq<Row>, r: seq<Row>) {
    exists at: seq<nat> :: Embeds(s, r, at)
  }

  ghost predicate Embeds(s: seq<Row>, r: seq<Row>, at: seq<nat>) {
    && |at| == |s|
    && (forall i :: 0 <= i < |s| ==> at[i] < |r| && r[at[i]] == s[i])
    && (forall i, j :: 0 <= i < j < |s| ==> at[i] < at[j])
  }

  lemma SublistSame(r: seq<Row>)
    ensures Sublist(r, r)
  {
    assert Embeds(r, r, seq(|r|, i requires 0 <= i < |r| => i));
  }

  lemma SublistDrop(s: seq<Row>, r: seq<Row>, k: nat)
    requires Sublist(s, r) && k < |s|
    ensures Sublist(s[..k] + s[k + 1..], r)
  {
    var at :| Embeds(s, r, at);
    assert Embeds(s[..k] + s[k + 1..], r, at[..k] + at[k + 1..]);
  }

  /** The oldest rows go until the rest fits. */
  function Fitting(rows: seq<Row>): seq<Row> {
    if rows == [] || !Overfull(rows) then rows else Fitting(rows[1..])
  }

  function Recent(rows: seq<Row>, now: int): seq<Row> {
    if rows == [] then [] else RecentRow(rows[0], now) + Recent(rows[1..], now)
  }

  function RecentRow(r: Row, now: int): seq<Row> {
    if r.created >= now - DAY then [r] else []
  }

  lemma {:induction false} TotalConcat(a: seq<Row>, b: seq<Row>)
    ensures TotalSize(a + b) == TotalSize(a) + TotalSize(b)
  {
    if a == [] {
      assert a + b == b;
    } else {
      TotalConcat(a[1..], b);
      assert (a + b)[1..] == a[1..] + b;
    }
  }

  lemma {:induction false} RecentConcat(a: seq<Row>, b: seq<Row>, now: int)
    ensures Recent(a + b, now) == Recent(a, now) + Recent(b, now)
  {
    if a == [] {
      assert a + b == b;
    } else {
      hide RecentRow;
      RecentConcat(a[1..], b, now);
      assert (a + b)[1..] == a[1..] + b && (a + b)[0] == a[0];
      Associate(RecentRow(a[0], now), Recent(a[1..], now), Recent(b, now));
    }
  }

  lemma {:induction false} AllRecent(rows: seq<Row>, now: int)
    requires forall i :: 0 <= i < |rows| ==> rows[i].created >= now - DAY
    ensures Recent(rows, now) == rows
  {
    if rows != [] {
      AllRecent(rows[1..], now);
    }
  }

  /** Deleting an expired row of a table that fits, or the first of one that does not, leaves
      the outcome as it was. */
  lemma DeletionKeeps(rows: seq<Row>, i: nat, now: int)
    requires i < |rows| && if Overfull(rows) then i == 0 else rows[i].created < now - DAY
    ensures Recent(Fitting(rows[..i] + rows[i + 1..]), now) == Recent(Fitting(rows), now)
  {
    var less := rows[..i] + rows[i + 1..];
    if Overfull(rows) {
      assert less == rows[1..];
    } else {
      assert rows == rows[..i] + [rows[i]] + rows[i + 1..];
      TotalConcat(rows[..i], rows[i + 1..]);
      TotalConcat(rows[..i] + [rows[i]], rows[i + 1..]);
      TotalConcat(rows[..i], [rows[i]]);
      RecentConcat(rows[..i], rows[i + 1..], now);
      RecentConcat(rows[..i] + [rows[i]], rows[i + 1..], now);
      RecentConcat(rows[..i], [rows[i]], now);
      assert Recent([rows[i]], now) == [];
    }
  }

  /** Deletes, oldest first, until nothing is expired and the table is within its limits. */
  method Prune(rows: seq<Row>, now: int) returns (kept: seq<Row>)
    ensures kept == Recent(Fitting(rows), now)
    ensures Sublist(kept, rows) && !Overfull(kept)
    ensures forall i :: 0 <= i < |kept| ==> kept[i].created >= now - DAY
  {
    hide Sublist, TotalSize, Recent, Fitting;
    kept := rows;
    SublistSame(rows);
    while true
      invariant Sublist(kept, rows) && Recent(Fitting(kept), now) == Recent(Fitting(rows), now)
      decreases |kept|
    {
      var i := 0;
      while i < |kept| && !(kept[i].created < now - DAY || Overfull(kept))
        invariant 0 <= i <= |kept|
        invariant forall k :: 0 <= k < i ==> kept[k].created >= now - DAY
        invariant i > 0 ==> !Overfull(kept)
      {
        i := i + 1;
      }
      if i == |kept| {
        NothingStored();
        AllRecent(kept, now);
        assert Fitting(kept) == kept by { Unchanged(kept); }
        break;
      }
      SublistDrop(kept, rows, i);
      DeletionKeeps(kept, i, now);
      kept := kept[..i] + kept[i + 1..];
    }
  }

  lemma Unchanged(rows: seq<Row>)
    ensures !Overfull(rows) ==> Fitting(rows) == rows
  {
  }

  lemma NothingStored()
    ensures !Overfull([])
  {
  }

  // ----- what the collector keeps -----

  /** Each message of a reporter occurs once. */
  ghost predicate NoRepeats(rows: seq<Row>) {
    forall i, j :: 0 <= i < j < |rows| ==>
      rows[i].key != rows[j].key || rows[i].event.sequence != rows[j].event.sequence
  }

  /** `ever` are the sequence numbers stored for a source at some time: together with the
      missed ones they make up everything the reporter counted. */
  ghost predicate SourceOk(s: Source, ever: set<nat>) {
    s.missed <= s.high && |ever| == s.high - s.missed && forall n :: n in ever ==> 1 <= n <= s.high
  }

  ghost predicate Counted(r: Row, ever: map<Key, set<nat>>) {
    r.key in ever && r.event.sequence in ever[r.key]
  }

  /** What holds whatever is delivered. */
  ghost predicate Accounted(t: Tables, ever: map<Key, set<nat>>) {
    && t.sources.Keys == ever.Keys && |t.sources| <= MAX_SOURCES
    && (forall k :: k in t.sources ==> SourceOk(t.sources[k], ever[k]))
    && (forall i :: 0 <= i < |t.rows| ==> Counted(t.rows[i], ever))
    && NoRepeats(t.rows)
  }

  /** The row holds the reporter's event of that number. */
  ghost predicate Genuine(r: Row, logs: map<Key, seq<Event>>) {
    r.key in logs && 1 <= r.event.sequence <= |logs[r.key]| && r.event == logs[r.key][r.event.sequence - 1]
  }

  /** What holds as long as the reports are the reporters' own. */
  ghost predicate Faithful(t: Tables, logs: map<Key, seq<Event>>) {
    && (forall k :: k in t.sources ==> k in logs && t.sources[k].high <= |logs[k]|)
    && (forall i :: 0 <= i < |t.rows| ==> Genuine(t.rows[i], logs))
  }

  ghost predicate Reporters(logs: map<Key, seq<Event>>) {
    forall k :: k in logs ==> Epoch(k.epoch) && Honest(logs[k])
  }

  /** The report is one its reporter made, now or earlier. */
  ghost predicate Own(logs: map<Key, seq<Event>>, k: Key, r: Report) {
    k in logs && exists n: nat :: n <= |logs[k]| && r == ReportAt(k.epoch, logs[k], n)
  }

  lemma PrunedRows(t: Tables, kept: seq<Row>, ever: map<Key, set<nat>>, logs: map<Key, seq<Event>>)
    requires Accounted(t, ever) && Sublist(kept, t.rows)
    ensures Accounted(t.(rows := kept), ever)
    ensures Faithful(t, logs) ==> Faithful(t.(rows := kept), logs)
  {
    hide Counted, Genuine, SourceOk;
    var at :| Embeds(kept, t.rows, at);
    assert forall i :: 0 <= i < |kept| ==> kept[i] == t.rows[at[i]];
    forall i, j | 0 <= i < j < |kept|
      ensures kept[i].key != kept[j].key || kept[i].event.sequence != kept[j].event.sequence
    {
      assert at[i] < at[j];
    }
  }

  /** Later observations leave what is stored genuine. */
  lemma GrownLogs(t: Tables, logs: map<Key, seq<Event>>, k: Key, e: Event)
    requires Faithful(t, logs) && k in logs
    ensures Faithful(t, logs[k := logs[k] + [e]])
  {
    var more := logs[k := logs[k] + [e]];
    forall i | 0 <= i < |t.rows| ensures Genuine(t.rows[i], more) {
      assert Genuine(t.rows[i], logs);
    }
  }

  // ----- accounting -----

  /** The stored rows of a source that are still recent. */
  function Retained(rows: seq<Row>, k: Key, since: int): nat {
    if rows == [] then 0
    else
      var n := |rows| - 1;
      Retained(rows[..n], k, since) + (if rows[n].key == k && rows[n].created >= since then 1 else 0)
  }

  ghost function Sequences(rows: seq<Row>, k: Key): set<nat> {
    set r | r in rows && r.key == k :: r.event.sequence
  }

  lemma {:induction false} RetainedCount(rows: seq<Row>, k: Key, since: int)
    requires NoRepeats(rows)
    ensures Retained(rows, k, since) <= |Sequences(rows, k)|
  {
    if rows != [] {
      var n := |rows| - 1;
      RetainedCount(rows[..n], k, since);
      SequencesStep(rows, k);
    }
  }

  lemma SequencesStep(rows: seq<Row>, k: Key)
    requires NoRepeats(rows) && rows != []
    ensures var n := |rows| - 1;
      |Sequences(rows, k)| == |Sequences(rows[..n], k)| + (if rows[n].key == k then 1 else 0)
  {
    var n := |rows| - 1;
    var before, all := Sequences(rows[..n], k), Sequences(rows, k);
    assert rows == rows[..n] + [rows[n]];
    if rows[n].key == k {
      assert all == before + {rows[n].event.sequence};
      assert rows[n].event.sequence !in before;
    } else {
      assert all == before;
    }
  }

  method CountRetained(rows: seq<Row>, k: Key, since: int) returns (n: nat)
    ensures n == Retained(rows, k, since)
  {
    n := 0;
    for i := 0 to |rows|
      invariant n == Retained(rows[..i], k, since)
    {
      assert rows[..i + 1][..i] == rows[..i];
      if rows[i].key == k && rows[i].created >= since {
        n := n + 1;
      }
    }
    assert rows[..|rows|] == rows;
  }

  /** What a query reports as expired or pruned is never negative. */
  lemma ExpiredOrPrunedNatural(t: Tables, ever: map<Key, set<nat>>, k: Key, since: int)
    requires Accounted(t, ever) && k in t.sources
    ensures t.sources[k].high - t.sources[k].missed - Retained(t.rows, k, since) >= 0
  {
    RetainedCount(t.rows, k, since);
    assert Sequences(t.rows, k) <= ever[k] by {
      forall r | r in t.rows && r.key == k ensures r.event.sequence in ever[k] {
        assert Counted(r, ever);
      }
    }
    Subset(Sequences(t.rows, k), ever[k]);
  }

  lemma Subset(a: set<nat>, b: set<nat>)
    requires a <= b
    ensures |a| <= |b|
  {
    assert |b| == |a| + |b - a|;
  }

  // ----- ingestion -----

  datatype Failure = None | InvalidReport | ReportRegressed | SourceCapacity | SequenceConflict | NotCommitted

  function HighOf(t: Tables, k: Key): nat {
    if k in t.sources then t.sources[k].high else 0
  }

  function MissedOf(t: Tables, k: Key): nat {
    if k in t.sources then t.sources[k].missed else 0
  }

  /** The rows of the report's events above `high`. */
  function NewRows(k: Key, r: Report, high: nat, now: int, sizes: seq<nat>): seq<Row>
    requires |sizes| == |r.events|
  {
    var from := Skipped(r, high);
    seq(|r.events| - from, i requires 0 <= i < |r.events| - from => Row(k, r.events[from + i], now, sizes[from + i]))
  }

  /** How many of the report's events are at or below `high`. */
  function Skipped(r: Report, high: nat): (n: nat)
    ensures n <= |r.events|
  {
    if high <= r.evicted then 0 else if high - r.evicted > |r.events| then |r.events| else high - r.evicted
  }

  /** A stored event of the same number differs. */
  ghost predicate Conflict(rows: seq<Row>, k: Key, r: Report, high: nat) {
    exists i, j :: 0 <= i < |r.events| && 0 <= j < |rows| && Clashes(rows[j], k, r.events[i], high)
  }

  predicate Clashes(row: Row, k: Key, e: Event, high: nat) {
    e.sequence <= high && row.key == k && row.event.sequence == e.sequence && row.event != e
  }

  method FindClash(rows: seq<Row>, k: Key, e: Event, high: nat) returns (found: bool)
    ensures found <==> exists j :: 0 <= j < |rows| && Clashes(rows[j], k, e, high)
  {
    for j := 0 to |rows|
      invariant forall i :: 0 <= i < j ==> !Clashes(rows[i], k, e, high)
    {
      if Clashes(rows[j], k, e, high) {
        return true;
      }
    }
    found := false;
  }

  /** Compares the events already counted and appends the others. */
  method AddEvents(rows: seq<Row>, k: Key, r: Report, high: nat, now: int, sizes: seq<nat>)
    returns (conflict: bool, more: seq<Row>)
    requires ReportOk(r) && |sizes| == |r.events|
    ensures conflict <==> Conflict(rows, k, r, high)
    ensures !conflict ==> more == rows + NewRows(k, r, high, now, sizes)
  {
    hide IdentifierOk, Epoch, Clashes;
    more := rows;
    var from := Skipped(r, high);
    for i := 0 to |r.events|
      invariant i <= from ==> more == rows
      invariant i > from ==> more == rows + NewRows(k, r, high, now, sizes)[..i - from]
      invariant forall a, j :: 0 <= a < i && 0 <= j < |rows| ==> !Clashes(rows[j], k, r.events[a], high)
    {
      var e := r.events[i];
      if e.sequence <= high {
        var clash := FindClash(rows, k, e, high);
        if clash {
          return true, more;
        }
      } else {
        Above(rows, k, e, high);
        ghost var added := NewRows(k, r, high, now, sizes);
        assert added[i - from] == Row(k, e, now, sizes[i]);
        more := more + [Row(k, e, now, sizes[i])];
        assert added[..i + 1 - from] == added[..i - from] + [added[i - from]];
      }
    }
    conflict := false;
  }

  lemma Above(rows: seq<Row>, k: Key, e: Event, high: nat)
    requires e.sequence > high
    ensures forall j :: 0 <= j < |rows| ==> !Clashes(rows[j], k, e, high)
  {
  }

  /** The numbers above `lo` up to `hi`. */
  function Range(lo: nat, hi: nat): (s: set<nat>)
    ensures forall n :: n in s <==> lo < n <= hi
    decreases hi
  {
    if hi <= lo then {} else Range(lo, hi - 1) + {hi}
  }

  lemma {:induction false} RangeCount(lo: nat, hi: nat)
    requires lo <= hi
    ensures |Range(lo, hi)| == hi - lo
    decreases hi
  {
    if lo < hi {
      RangeCount(lo, hi - 1);
    }
  }

  /** The report as stored: its new events are rows, the rest of what it counts is missed. */
  function Ingested(t: Tables, k: Key, r: Report, now: int, sizes: seq<nat>): Tables
    requires |sizes| == |r.events|
  {
    var high := HighOf(t, k);
    Tables(t.sources[k := Source(r.total, MissedOf(t, k) + Max(0, r.evicted - high), r.evicted)],
           t.rows + NewRows(k, r, high, now, sizes))
  }

  ghost function EverOf(ever: map<Key, set<nat>>, k: Key): set<nat> {
    if k in ever then ever[k] else {}
  }

  /** The numbers ever stored, once the report's new rows are inserted. */
  ghost function EverAfter(t: Tables, ever: map<Key, set<nat>>, k: Key, r: Report, now: int, sizes: seq<nat>): map<Key, set<nat>>
    requires |sizes| == |r.events|
  {
    ever[k := EverOf(ever, k) + Sequences(NewRows(k, r, HighOf(t, k), now, sizes), k)]
  }

  /** The rows inserted for a report carry every number it counts above both the collector's
      counter and the reporter's evictions, each once. */
  lemma NewSequences(k: Key, r: Report, high: nat, now: int, sizes: seq<nat>)
    requires ReportOk(r) && r.total >= high && |sizes| == |r.events|
    ensures Sequences(NewRows(k, r, high, now, sizes), k) == Range(Max(high, r.evicted), r.total)
    ensures |NewRows(k, r, high, now, sizes)| == r.total - Max(high, r.evicted)
  {
    hide ReportOk, Range;
    var lo, rows := Max(high, r.evicted), NewRows(k, r, high, now, sizes);
    NewRowCount(k, r, high, now, sizes);
    hide NewRows;
    forall n | lo < n <= r.total ensures n in Sequences(rows, k) {
      NewRowNumbers(k, r, high, now, sizes, n - lo - 1);
      assert rows[n - lo - 1] in rows;
    }
    forall row | row in rows ensures lo < row.event.sequence <= r.total {
      var i :| 0 <= i < |rows| && rows[i] == row;
      NewRowNumbers(k, r, high, now, sizes, i);
    }
  }

  lemma NewRowCount(k: Key, r: Report, high: nat, now: int, sizes: seq<nat>)
    requires ReportOk(r) && r.total >= high && |sizes| == |r.events|
    ensures |NewRows(k, r, high, now, sizes)| == r.total - Max(high, r.evicted)
  {
    hide IdentifierOk, Epoch;
  }

  lemma SourceStep(t: Tables, ever: map<Key, set<nat>>, k: Key, r: Report, now: int, sizes: seq<nat>)
    requires Accounted(t, ever) && ReportOk(r) && r.total >= HighOf(t, k) && |sizes| == |r.events|
    ensures SourceOk(Source(r.total, MissedOf(t, k) + Max(0, r.evicted - HighOf(t, k)), r.evicted),
                     EverAfter(t, ever, k, r, now, sizes)[k])
    ensures EverOf(ever, k) !! Sequences(NewRows(k, r, HighOf(t, k), now, sizes), k)
  {
    hide Counted, NoRepeats, IdentifierOk, Epoch, Range, NewRows, Sequences;
    var high := HighOf(t, k);
    var lo := Max(high, r.evicted);
    var before, added := EverOf(ever, k), Range(lo, r.total);
    assert r.evicted <= r.total;
    NewSequences(k, r, high, now, sizes);
    RangeCount(lo, r.total);
    EverBelow(t, ever, k);
    assert before !! added;
    assert |before + added| == |before| + |added|;
  }

  lemma EverBelow(t: Tables, ever: map<Key, set<nat>>, k: Key)
    requires Accounted(t, ever)
    ensures MissedOf(t, k) <= HighOf(t, k) && |EverOf(ever, k)| == HighOf(t, k) - MissedOf(t, k)
    ensures forall n :: n in EverOf(ever, k) ==> 1 <= n <= HighOf(t, k)
  {
    if k in t.sources {
      assert SourceOk(t.sources[k], ever[k]);
    }
  }

  lemma NewRowNumbers(k: Key, r: Report, high: nat, now: int, sizes: seq<nat>, i: nat)
    requires ReportOk(r) && |sizes| == |r.events| && i < |NewRows(k, r, high, now, sizes)|
    ensures
      var row := NewRows(k, r, high, now, sizes)[i];
      row.key == k && row.event.sequence == Max(high, r.evicted) + 1 + i && row.event.sequence <= r.total
      && row.event in r.events
  {
    hide IdentifierOk, Epoch;
  }

  lemma CountedLater(t: Tables, ever: map<Key, set<nat>>, k: Key, r: Report, now: int, sizes: seq<nat>, row: Row)
    requires Counted(row, ever) && |sizes| == |r.events|
    ensures Counted(row, EverAfter(t, ever, k, r, now, sizes))
  {
  }

  lemma NewCounted(t: Tables, ever: map<Key, set<nat>>, k: Key, r: Report, now: int, sizes: seq<nat>, i: nat)
    requires ReportOk(r) && |sizes| == |r.events| && i < |NewRows(k, r, HighOf(t, k), now, sizes)|
    ensures Counted(NewRows(k, r, HighOf(t, k), now, sizes)[i], EverAfter(t, ever, k, r, now, sizes))
  {
    hide ReportOk, NewRows;
    NewRowNumbers(k, r, HighOf(t, k), now, sizes, i);
    assert NewRows(k, r, HighOf(t, k), now, sizes)[i] in NewRows(k, r, HighOf(t, k), now, sizes);
  }

  lemma IngestNoRepeats(t: Tables, ever: map<Key, set<nat>>, k: Key, r: Report, now: int, sizes: seq<nat>)
    requires Accounted(t, ever) && ReportOk(r) && |sizes| == |r.events|
    ensures NoRepeats(t.rows + NewRows(k, r, HighOf(t, k), now, sizes))
  {
    hide ReportOk, NewRows;
    var high := HighOf(t, k);
    var rows, n := t.rows + NewRows(k, r, high, now, sizes), |t.rows|;
    forall i, j | 0 <= i < j < |rows|
      ensures rows[i].key != rows[j].key || rows[i].event.sequence != rows[j].event.sequence
    {
      if j >= n {
        NewRowNumbers(k, r, high, now, sizes, j - n);
        if i >= n {
          NewRowNumbers(k, r, high, now, sizes, i - n);
        } else {
          CountedBelow(t, ever, t.rows[i]);
        }
      }
    }
  }

  lemma CountedBelow(t: Tables, ever: map<Key, set<nat>>, row: Row)
    requires Accounted(t, ever) && row in t.rows
    ensures row.event.sequence <= HighOf(t, row.key)
  {
    assert Counted(row, ever);
    assert SourceOk(t.sources[row.key], ever[row.key]);
  }

  lemma IngestAccounted(t: Tables, ever: map<Key, set<nat>>, k: Key, r: Report, now: int, sizes: seq<nat>)
    requires Accounted(t, ever) && ReportOk(r) && r.total >= HighOf(t, k) && |sizes| == |r.events|
    requires k in t.sources || |t.sources| < MAX_SOURCES
    ensures Accounted(Ingested(t, k, r, now, sizes), EverAfter(t, ever, k, r, now, sizes))
  {
    hide ReportOk, SourceOk, NewRows, Counted, NoRepeats, Range, EverOf, Sequences;
    var u, after := Ingested(t, k, r, now, sizes), EverAfter(t, ever, k, r, now, sizes);
    SourceStep(t, ever, k, r, now, sizes);
    if k !in t.sources {
      SourceCount(t.sources, k, u.sources[k]);
    } else {
      assert u.sources.Keys == t.sources.Keys;
      assert |u.sources| == |u.sources.Keys| && |t.sources| == |t.sources.Keys|;
    }
    forall i | 0 <= i < |u.rows| ensures Counted(u.rows[i], after) {
      if i >= |t.rows| {
        NewCounted(t, ever, k, r, now, sizes, i - |t.rows|);
      } else {
        CountedLater(t, ever, k, r, now, sizes, t.rows[i]);
      }
    }
    IngestNoRepeats(t, ever, k, r, now, sizes);
  }

  lemma SourceCount(sources: map<Key, Source>, k: Key, s: Source)
    requires k !in sources
    ensures |sources[k := s]| == |sources| + 1
  {
    assert sources[k := s].Keys == sources.Keys + {k};
    assert |sources[k := s]| == |sources[k := s].Keys| && |sources| == |sources.Keys|;
  }

  /** A genuine report, however late, conflicts with nothing and adds genuine rows. */
  lemma IngestFaithful(t: Tables, logs: map<Key, seq<Event>>, k: Key, r: Report, now: int, sizes: seq<nat>)
    requires Faithful(t, logs) && Reporters(logs) && Own(logs, k, r) && ReportOk(r) && |sizes| == |r.events|
    ensures !Conflict(t.rows, k, r, HighOf(t, k))
    ensures Faithful(Ingested(t, k, r, now, sizes), logs)
  {
    hide ReportOk, NewRows, Own, Clashes, Genuine, Reporters;
    forall i, j | 0 <= i < |r.events| && 0 <= j < |t.rows| ensures !Clashes(t.rows[j], k, r.events[i], HighOf(t, k)) {
      OwnEvent(logs, k, r, r.events[i]);
      NoClash(t.rows[j], logs, k, r.events[i], HighOf(t, k));
    }
    var u := Ingested(t, k, r, now, sizes);
    OwnTotal(logs, k, r);
    forall i | 0 <= i < |u.rows| ensures Genuine(u.rows[i], logs) {
      if i >= |t.rows| {
        NewRowNumbers(k, r, HighOf(t, k), now, sizes, i - |t.rows|);
        OwnEvent(logs, k, r, u.rows[i].event);
        GenuineRow(u.rows[i], logs);
      }
    }
  }

  lemma OwnEvent(logs: map<Key, seq<Event>>, k: Key, r: Report, e: Event)
    requires Reporters(logs) && Own(logs, k, r) && e in r.events
    ensures k in logs && 1 <= e.sequence <= |logs[k]| && e == logs[k][e.sequence - 1]
  {
    hide Epoch, LowerHex;
    var n: nat :| n <= |logs[k]| && r == ReportAt(k.epoch, logs[k], n);
    var i :| 0 <= i < |r.events| && r.events[i] == e;
    assert e == logs[k][r.evicted + i];
  }

  lemma OwnReport(logs: map<Key, seq<Event>>, k: Key, n: nat)
    requires k in logs && n <= |logs[k]|
    ensures Own(logs, k, ReportAt(k.epoch, logs[k], n))
  {
  }

  lemma OwnTotal(logs: map<Key, seq<Event>>, k: Key, r: Report)
    requires Own(logs, k, r)
    ensures k in logs && r.total <= |logs[k]|
  {
  }

  lemma NoClash(row: Row, logs: map<Key, seq<Event>>, k: Key, e: Event, high: nat)
    requires Genuine(row, logs) && k in logs && 1 <= e.sequence <= |logs[k]| && e == logs[k][e.sequence - 1]
    ensures !Clashes(row, k, e, high)
  {
  }

  lemma GenuineRow(row: Row, logs: map<Key, seq<Event>>)
    requires row.key in logs && 1 <= row.event.sequence <= |logs[row.key]|
    requires row.event == logs[row.key][row.event.sequence - 1]
    ensures Genuine(row, logs)
  {
  }

  class Collector {
    var tables: Tables
    ghost var ever: map<Key, set<nat>>
    /** What the reporters have observed so far; the collector itself never reads it. */
    var logs: map<Key, seq<Event>>
    /** Every report ingested so far was its reporter's own. */
    ghost var trusted: bool

    ghost predicate Valid()
      reads this
    {
      Accounted(tables, ever) && (trusted ==> Faithful(tables, logs)) && Reporters(logs)
    }

    constructor (reporters: map<Key, seq<Event>>)
      requires Reporters(reporters)
      ensures Valid() && tables == Tables(map[], []) && ever == map[] && logs == reporters && trusted
    {
      tables, ever, logs, trusted := Tables(map[], []), map[], reporters, true;
    }

    /** Ingests a report in one transaction. */
    method Ingest(k: Key, r: Report, now: int, sizes: seq<nat>, committed: bool) returns (f: Failure)
      requires Valid() && |sizes| == |r.events|
      modifies this`tables, this`ever, this`trusted
      ensures Valid() && trusted == (old(trusted) && (f == None ==> Own(logs, k, r)))
      ensures f != None ==> tables == old(tables) && ever == old(ever)
      ensures f == None <==>
        ReportOk(r) && r.total >= HighOf(old(tables), k) && committed
        && (k in old(tables).sources || |old(tables).sources| < MAX_SOURCES)
        && !Conflict(old(tables).rows, k, r, HighOf(old(tables), k))
      ensures f == None ==>
        tables.sources == Ingested(old(tables), k, r, now, sizes).sources
        && tables.rows == Recent(Fitting(Ingested(old(tables), k, r, now, sizes).rows), now)
        && Sublist(tables.rows, Ingested(old(tables), k, r, now, sizes).rows)
        && ever == EverAfter(old(tables), old(ever), k, r, now, sizes)
        && EverOf(old(ever), k) !! Sequences(NewRows(k, r, HighOf(old(tables), k), now, sizes), k)
        && Sequences(NewRows(k, r, HighOf(old(tables), k), now, sizes), k) == Range(Max(HighOf(old(tables), k), r.evicted), r.total)
        && |NewRows(k, r, HighOf(old(tables), k), now, sizes)| == r.total - Max(HighOf(old(tables), k), r.evicted)
      ensures f == SequenceConflict ==> !(old(trusted) && Own(logs, k, r))
    {
      hide Accounted, Faithful, ReportOk, Sublist, Conflict, NewRows, Overfull, Own, Reporters, EverAfter, EverOf, Range, Recent, Fitting, Sequences;
      var ok := Validate(r);
      if !ok {
        return InvalidReport;
      }
      var high, missed := HighOf(tables, k), MissedOf(tables, k);
      if r.total < high {
        return ReportRegressed;
      }
      if k !in tables.sources && |tables.sources| >= MAX_SOURCES {
        return SourceCapacity;
      }
      if trusted && Own(logs, k, r) {
        IngestFaithful(tables, logs, k, r, now, sizes);
      }
      IngestAccounted(tables, ever, k, r, now, sizes);
      SourceStep(tables, ever, k, r, now, sizes);
      NewSequences(k, r, high, now, sizes);
      missed := missed + Max(0, r.evicted - high);
      var conflict, rows := AddEvents(tables.rows, k, r, high, now, sizes);
      if conflict {
        return SequenceConflict;
      }
      var t := Tables(tables.sources[k := Source(r.total, missed, r.evicted)], rows);
      assert t == Ingested(tables, k, r, now, sizes);
      var kept := Prune(rows, now);
      ghost var after := EverAfter(tables, ever, k, r, now, sizes);
      PrunedRows(t, kept, after, logs);
      if !committed {
        return NotCommitted;
      }
      tables, ever, trusted := t.(rows := kept), after, trusted && Own(logs, k, r);
      return None;
    }

    /** The collector's own retention between polls. */
    method Retain(now: int)
      requires Valid()
      modifies this`tables
      ensures Valid() && tables.sources == old(tables).sources && Sublist(tables.rows, old(tables).rows)
      ensures tables.rows == Recent(Fitting(old(tables).rows), now)
    {
      var kept := Prune(tables.rows, now);
      PrunedRows(tables, kept, ever, logs);
      tables := tables.(rows := kept);
    }

    /** A reporter observes one more message. */
    method Observed(k: Key, e: Event)
      requires Valid() && k in logs && Honest(logs[k] + [e])
      modifies this`logs
      ensures Valid() && logs == old(logs)[k := old(logs)[k] + [e]]
    {
      if trusted {
        GrownLogs(tables, logs, k, e);
      }
      logs := logs[k := logs[k] + [e]];
    }

    /** Any sequence of observations, deliveries and retention; with `genuine` every delivery is
        a report its reporter made at some time, lost, repeated or late as it may be. Everything
        a reporter counted is missed or was stored; counters never fall; a pruned message does
        not come back; and genuine deliveries leave only genuine events. */
    method Lifetime(steps: nat, genuine: bool)
      requires Valid()
      modifies this
      ensures Valid()
      ensures forall k :: k in tables.sources ==> k in ever && tables.sources[k].high == tables.sources[k].missed + |ever[k]|
      ensures forall k :: k in old(ever) ==> k in ever && old(ever)[k] <= ever[k]
      ensures forall k :: k in old(tables).sources ==> k in tables.sources && old(tables).sources[k].high <= tables.sources[k].high
      ensures forall row :: row in tables.rows ==>
        Seen(old(tables), row) || row.key !in old(tables).sources || row.event.sequence > old(tables).sources[row.key].high
      ensures genuine && old(trusted) ==> trusted && Faithful(tables, logs)
    {
      hide Accounted, Faithful, Ingested, ReportOk, Conflict, Own, Reporters, EverAfter, Sublist, Recent, Fitting, Honest,
        NewRows, Sequences, Range, EverOf;
      for i := 0 to steps
        invariant Valid() && (genuine && old(trusted) ==> trusted)
        invariant forall k :: k in old(ever) ==> k in ever && old(ever)[k] <= ever[k]
        invariant forall k :: k in old(tables).sources ==> k in tables.sources && old(tables).sources[k].high <= tables.sources[k].high
        invariant forall row :: row in tables.rows ==>
          Seen(old(tables), row) || row.key !in old(tables).sources || row.event.sequence > old(tables).sources[row.key].high
      {
        var choice: nat :| true;
        var k: Key :| true;
        var now: int :| true;
        ghost var before, known := tables, ever;
        if choice == 0 {
          var e: Event :| true;
          if k in logs && Honest(logs[k] + [e]) {
            Observed(k, e);
          }
        } else if choice == 1 {
          Retain(now);
          Kept(before.rows, tables.rows);
        } else if !genuine || k in logs {
          var r: Report :| true;
          if genuine {
            var n: nat :| true;
            r := ReportAt(k.epoch, logs[k], if n <= |logs[k]| then n else |logs[k]|);
            OwnReport(logs, k, if n <= |logs[k]| then n else |logs[k]|);
          }
          var committed: bool := *;
          assert |seq(|r.events|, _ => 0)| == |r.events|;
          var sizes: seq<nat> :| |sizes| == |r.events|;
          var f := Ingest(k, r, now, sizes, committed);
          if f == None {
            IngestGrows(before, known, k, r, now, sizes);
            Kept(Ingested(before, k, r, now, sizes).rows, tables.rows);
          }
        }
      }
      Conserved(tables, ever);
    }
  }

  /** What a reporter counted is what was missed and what was stored at some time. */
  lemma Conserved(t: Tables, ever: map<Key, set<nat>>)
    requires Accounted(t, ever)
    ensures forall k :: k in t.sources ==> k in ever && t.sources[k].high == t.sources[k].missed + |ever[k]|
  {
    hide Counted, NoRepeats;
    forall k | k in t.sources ensures t.sources[k].high == t.sources[k].missed + |ever[k]| {
      assert SourceOk(t.sources[k], ever[k]);
    }
  }

  predicate Seen(t: Tables, row: Row) {
    row in t.rows
  }

  lemma Kept(rows: seq<Row>, kept: seq<Row>)
    requires Sublist(kept, rows)
    ensures forall row :: row in kept ==> row in rows
  {
    var at :| Embeds(kept, rows, at);
  }

  lemma IngestGrows(t: Tables, ever: map<Key, set<nat>>, k: Key, r: Report, now: int, sizes: seq<nat>)
    requires ReportOk(r) && r.total >= HighOf(t, k) && |sizes| == |r.events|
    ensures
      var u := Ingested(t, k, r, now, sizes);
      && (forall j :: j in t.sources ==> j in u.sources && t.sources[j].high <= u.sources[j].high)
      && (forall row :: row in u.rows ==> row in t.rows || (row.key == k && row.event.sequence > HighOf(t, k)))
    ensures forall j :: j in ever ==> j in EverAfter(t, ever, k, r, now, sizes) && ever[j] <= EverAfter(t, ever, k, r, now, sizes)[j]
  {
    hide ReportOk, NewRows;
    var u := Ingested(t, k, r, now, sizes);
    var added := NewRows(k, r, HighOf(t, k), now, sizes);
    forall row | row in u.rows && row !in t.rows ensures row.key == k && row.event.sequence > HighOf(t, k) {
      assert row in added;
      var i :| 0 <= i < |added| && added[i] == row;
      NewRowNumbers(k, r, HighOf(t, k), now, sizes, i);
    }
  }
}
