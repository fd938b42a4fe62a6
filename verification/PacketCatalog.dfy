/** The packet index as its worker, its queries and its maintenance operations change it.
    Whatever they interleave with and wherever they are cut off, no packet is indexed twice. */
module PacketCatalog {
  import opened Options
  import opened Ordering
  import opened PacketTables

  // ----- what holds of the tables at every commit -----

  /** No packet of a segment is listed twice. */
  ghost predicate NoRepeats(rows: seq<Row>) {
    forall i, j :: 0 <= i < j < |rows| ==> rows[i].artifact != rows[j].artifact || rows[i].index != rows[j].index
  }

  /** `since` are the segments indexed since their run was last rebuilt. Each has a receipt or
      an order key at or below the floor, which is what keeps it from being indexed again. */
  ghost predicate Sound(d: Tables, since: set<Artifact>, keyOf: Artifact -> string) {
    && PacketTables.Ascending(d) && NoRepeats(d.rows)
    && (forall i :: 0 <= i < |d.rows| ==> d.rows[i].artifact in since)
    && d.receipts.Keys <= since
    && (forall a :: a in d.receipts ==> d.receipts[a] == "" || d.receipts[a] == keyOf(a))
    && (forall a :: a in since ==> a in d.receipts || AtMost(keyOf(a), d.floor))
  }

  lemma SublistSound(d: Tables, e: Tables, since: set<Artifact>, keyOf: Artifact -> string)
    requires Sound(d, since, keyOf) && PacketTables.Ascending(e) && Sublist(e.rows, d.rows)
    requires e.receipts == d.receipts && e.floor == d.floor
    ensures Sound(e, since, keyOf)
  {
    hide Less, AtMost;
    forall i, j | 0 <= i < j < |e.rows|
      ensures e.rows[i].artifact != e.rows[j].artifact || e.rows[i].index != e.rows[j].index
    {
      assert e.rows[i] in d.rows && e.rows[j] in d.rows;
      var k :| 0 <= k < |d.rows| && d.rows[k] == e.rows[i];
      var l :| 0 <= l < |d.rows| && d.rows[l] == e.rows[j];
      assert k < l;
    }
    forall i | 0 <= i < |e.rows| ensures e.rows[i].artifact in since {
      assert e.rows[i] in d.rows;
    }
  }

  lemma RecycledSound(d: Tables, e: Tables, since: set<Artifact>, keyOf: Artifact -> string)
    requires Sound(d, since, keyOf) && Recycled(d, e)
    ensures Sound(e, since, keyOf)
  {
    hide Less, AtMost;
    forall a | a in since && a !in e.receipts ensures AtMost(keyOf(a), e.floor) {
      if a !in d.receipts {
        AtMostTransitive(keyOf(a), d.floor, e.floor);
      }
    }
  }

  // ----- inserting a segment -----

  datatype Packet = Packet(index: nat, edge: string, nodeA: string, nodeB: string, protocol: string, size: nat)

  const MAX_RECORD := 2048

  function RowOf(p: Packet, a: Artifact, id: nat, now: int): Row {
    Row(id, a, p.index, p.edge, p.nodeA, p.nodeB, p.protocol, now, p.size)
  }

  ghost predicate Numbered(packets: seq<Packet>) {
    forall i, j :: 0 <= i < j < |packets| ==> packets[i].index < packets[j].index
  }

  /** The tables with the first `n` packets of a segment appended. */
  function WithRows(d: Tables, a: Artifact, packets: seq<Packet>, n: nat, now: int): Tables
    requires n <= |packets|
  {
    d.(rows := d.rows + seq(n, i requires 0 <= i < n => RowOf(packets[i], a, d.lastId + 1 + i, now)), lastId := d.lastId + n)
  }

  lemma InsertSound(d: Tables, since: set<Artifact>, keyOf: Artifact -> string, a: Artifact,
                    packets: seq<Packet>, n: nat, now: int)
    requires Sound(d, since, keyOf) && a !in since && Numbered(packets) && n <= |packets|
    ensures Sound(WithRows(d, a, packets, n, now).(receipts := d.receipts[a := keyOf(a)]), since + {a}, keyOf)
  {
    hide Less, AtMost;
    var e := WithRows(d, a, packets, n, now).(receipts := d.receipts[a := keyOf(a)]);
    var k := |d.rows|;
    assert forall i :: 0 <= i < k ==> e.rows[i] == d.rows[i];
    assert forall i :: k <= i < k + n ==> e.rows[i] == RowOf(packets[i - k], a, d.lastId + 1 + i - k, now);
  }

  // ----- scanning -----

  /** A closed segment named by a capture manifest, with its order key. */
  datatype Candidate = Candidate(artifact: Artifact, key: string)

  const WINDOW := 1000
  const MAX_ACCEPTED := 128

  /** The candidates of the latest keys: every other one sorts before all of a full window. */
  ghost predicate Windowed(entries: seq<Candidate>, window: map<string, Artifact>) {
    && |window| <= WINDOW
    && (forall k :: k in window ==> Candidate(window[k], k) in entries)
    && (forall e :: e in entries ==> e.key in window || (|window| == WINDOW && forall k :: k in window ==> Less(e.key, k)))
  }

  method Window(entries: seq<Candidate>) returns (window: map<string, Artifact>, truncated: bool)
    ensures Windowed(entries, window)
  {
    hide Windowed;
    window, truncated := map[], false;
    assert Windowed(entries[..0], window) by { EmptyWindow(); }
    for i := 0 to |entries|
      invariant Windowed(entries[..i], window) && |window| <= WINDOW
    {
      var e := entries[i];
      assert entries[..i + 1] == entries[..i] + [e];
      ghost var before := window;
      if e.key !in window {
        window := window[e.key := e.artifact];
      }
      if |window| > WINDOW {
        var least := Least(window.Keys);
        WindowStep(entries[..i], before, e, least);
        window := window - {least};
        truncated := true;
      } else {
        WindowGrows(entries[..i], before, e);
      }
    }
    assert entries[..|entries|] == entries;
  }

  lemma EmptyWindow()
    ensures Windowed([], map[])
  {
  }

  lemma WindowGrows(entries: seq<Candidate>, window: map<string, Artifact>, e: Candidate)
    requires Windowed(entries, window)
    requires e.key !in window ==> |window[e.key := e.artifact]| <= WINDOW
    ensures Windowed(entries + [e], if e.key in window then window else window[e.key := e.artifact])
  {
    hide Less;
    if e.key !in window {
      Grown(window, e.key, e.artifact);
    }
  }

  lemma Grown(window: map<string, Artifact>, k: string, a: Artifact)
    requires k !in window
    ensures |window[k := a]| == |window| + 1
  {
    assert window[k := a].Keys == window.Keys + {k};
    assert |window[k := a]| == |window[k := a].Keys| && |window| == |window.Keys|;
  }

  lemma WindowStep(entries: seq<Candidate>, window: map<string, Artifact>, e: Candidate, least: string)
    requires Windowed(entries, window) && e.key !in window
    requires var grown := window[e.key := e.artifact];
      |grown| > WINDOW && least in grown && forall k :: k in grown && k != least ==> Less(least, k)
    ensures Windowed(entries + [e], window[e.key := e.artifact] - {least})
  {
    hide Less;
    var grown := window[e.key := e.artifact];
    Grown(window, e.key, e.artifact);
    var r := grown - {least};
    assert r.Keys == grown.Keys - {least};
    assert |r| == |r.Keys| && |grown| == |grown.Keys|;
    forall f | f in entries + [e] && f.key !in r ensures forall k :: k in r ==> Less(f.key, k) {
      if f.key != least {
        assert f in entries && f.key !in window;
        forall k | k in r ensures Less(f.key, k) {
          if k == e.key {
            assert Less(f.key, least) by { assert least in window; }
            LessTransitive(f.key, least, k);
          }
        }
      }
    }
  }

  datatype Request = Request(run: string, rebuild: bool)

  class History {
    var db: Tables
    var busy: bool
    var pending: Option<Request>
    /** The order key of a segment: its closing time, run, capture and number never change. */
    const keyOf: Artifact -> string
    ghost var since: set<Artifact>
    ghost var insertions: multiset<Artifact>
    ghost var rebuilt: set<string>

    ghost predicate Valid()
      reads this
    {
      && Sound(db, since, keyOf) && |Keyed(db.receipts)| <= MAX_RECEIPTS
      && Once(since, insertions, rebuilt)
      && (busy ==> pending.None?)
      && (pending.Some? && pending.value.rebuild ==> Forgotten(since, pending.value.run))
    }

    /** Opens existing tables, of either version, or new ones. */
    constructor (tables: Tables, ghost indexed: set<Artifact>, keys: Artifact -> string)
      requires Sound(tables, indexed, keys) && |Keyed(tables.receipts)| <= MAX_RECEIPTS
      ensures Valid() && db == tables
    {
      db, busy, pending := tables, false, None;
      keyOf, since, insertions, rebuilt := keys, indexed, multiset(indexed), {};
    }

    /** Whether a segment needs no indexing. A version 1 receipt is given its key, and a
        segment at or below the floor counts as retired unless its run is being rebuilt. */
    method Known(a: Artifact, key: string, rebuild: bool, committed: bool) returns (thrown: bool, known: bool)
      requires Valid() && key == keyOf(a) && key != ""
      modifies this`db
      ensures Valid() && db.rows == old(db.rows) && db.lastId == old(db.lastId) && db.generation == old(db.generation)
      ensures Evolves(old(db), db)
      ensures AtMost(old(db.floor), db.floor)
      ensures old(db.receipts.Keys) >= db.receipts.Keys
      ensures !thrown ==> (known <==> a in old(db.receipts) || (!rebuild && AtMost(key, old(db.floor))))
      ensures thrown || !known || a !in old(db.receipts) || old(db.receipts)[a] != "" ==> db == old(db)
      ensures !thrown && a in old(db.receipts) && old(db.receipts)[a] == "" ==>
        Recycled(old(db).(receipts := old(db.receipts)[a := key]), db)
    {
      hide Less, AtMost;
      NotBelow(db.floor);
      if a in db.receipts {
        if db.receipts[a] != "" {
          return false, true;
        }
        var d := db.(receipts := db.receipts[a := key]);
        assert Sound(d, since, keyOf);
        var e := Recycle(d);
        RecycledSound(d, e, since, keyOf);
        if !committed {
          return true, false;
        }
        db := e;
        return false, true;
      }
      return false, !rebuild && AtMost(key, db.floor);
    }

    /** Indexes a segment: receipt, rows, retention and recycling in one transaction, which is
        rolled back when a record is too long, the receipt exists, or the commit fails. */
    method Save(a: Artifact, key: string, packets: seq<Packet>, now: int, committed: bool) returns (thrown: bool)
      requires Valid() && busy && key == keyOf(a) && key != "" && Numbered(packets)
      requires a !in db.receipts ==> a !in since
      modifies this`db, this`since, this`insertions
      ensures Valid() && AtMost(old(db.floor), db.floor) && Evolves(old(db), db)
      ensures thrown ==> db == old(db) && since == old(since) && insertions == old(insertions)
      ensures !thrown ==> since == old(since) + {a} && insertions == old(insertions) + multiset{a}
                          && Saved(old(db), a, key, packets, now, db)
      ensures thrown <==> a in old(db.receipts) || !committed || exists i :: 0 <= i < |packets| && packets[i].size > MAX_RECORD
    {
      hide Less, AtMost, Pruned, Recycled, Keyed, Sound, Evolves;
      NotBelow(db.floor);
      EvolvesReflexive(db);
      if a in db.receipts {
        return true;
      }
      var d := db;
      var n := 0;
      while n < |packets|
        invariant 0 <= n <= |packets| && d == WithRows(db, a, packets, n, now)
        invariant forall i :: 0 <= i < n ==> packets[i].size <= MAX_RECORD
      {
        if packets[n].size > MAX_RECORD {
          return true;
        }
        d := d.(rows := d.rows + [RowOf(packets[n], a, d.lastId + 1, now)], lastId := d.lastId + 1);
        n := n + 1;
      }
      d := d.(receipts := db.receipts[a := key]);
      InsertSound(db, since, keyOf, a, packets, n, now);
      SoundAscends(d, since + {a}, keyOf);
      var e := Prune(d, now);
      PrunedSound(d, now, e, since + {a}, keyOf);
      PrunedReceipts(d, now, e);
      var f := Recycle(e);
      RecycledSound(e, f, since + {a}, keyOf);
      RecycledLimits(e, f);
      SaveEvolves(db, d, e, f, now, a, packets);
      if !committed {
        return true;
      }
      OnceMore(since, insertions, rebuilt, a);
      db := f;
      since, insertions := since + {a}, insertions + multiset{a};
      return false;
    }

    /** A query first applies retention; then, unless its cursor is refused, it asks for a scan of
        its run if none is queued or running. */
    method Query(run: string, now: int, committed: bool, accepted: bool) returns (thrown: bool)
      requires Valid()
      modifies this`db, this`pending
      ensures Valid() && busy == old(busy) && Evolves(old(db), db)
      ensures db.receipts == old(db.receipts) && db.floor == old(db.floor)
      ensures thrown <==> !committed || !accepted
      ensures !committed ==> db == old(db)
      ensures committed ==> Pruned(old(db), now, db)
      ensures thrown ==> pending == old(pending)
      ensures !thrown ==> pending == if old(busy) || old(pending).Some? then old(pending) else Some(Request(run, false))
    {
      hide Less, AtMost, Pruned, Keyed, Sound, Evolves;
      SoundAscends(db, since, keyOf);
      EvolvesReflexive(db);
      var e := Prune(db, now);
      PrunedEvolves(db, now, e);
      PrunedSound(db, now, e, since, keyOf);
      PrunedReceipts(db, now, e);
      if !committed {
        return true;
      }
      db := e;
      if !accepted {
        return true;
      }
      if !busy && pending.None? {
        pending := Some(Request(run, false));
      }
      return false;
    }

    /** Forgets a run and queues its re-indexing; refused while the worker is busy. */
    method Rebuild(run: string, committed: bool) returns (thrown: bool)
      requires Valid()
      modifies this`db, this`pending, this`since, this`rebuilt
      ensures Valid() && busy == old(busy) && db.floor == old(db.floor) && old(rebuilt) <= rebuilt
      ensures Evolves(old(db), db)
      ensures old(busy) || old(pending).Some? || !committed ==>
        thrown && db == old(db) && pending == old(pending) && since == old(since) && rebuilt == old(rebuilt)
      ensures !thrown ==> rebuilt == old(rebuilt) + {run} && pending == Some(Request(run, true))
                          && db == Forget(old(db), run) && since == OtherRuns(old(since), run)
    {
      hide Less, AtMost, Sound, Keyed;
      if busy || pending.Some? || !committed {
        return true;
      }
      var e := Forget(db, run);
      RebuiltSound(db, e, since, keyOf, run);
      OnceRebuilt(since, insertions, rebuilt, run);
      db := e;
      since, rebuilt := OtherRuns(since, run), rebuilt + {run};
      pending := Some(Request(run, true));
      return false;
    }

    /** Other threads use the index whenever the worker does not hold its lock. */
    method Interleave()
      requires Valid() && busy
      modifies this`db, this`pending, this`since, this`rebuilt
      ensures Valid() && pending == old(pending) && since == old(since) && rebuilt == old(rebuilt)
      ensures db.receipts == old(db.receipts) && db.floor == old(db.floor) && Evolves(old(db), db)
    {
      hide Evolves;
      var calls: nat :| true;
      EvolvesReflexive(db);
      for i := 0 to calls
        invariant Evolves(old(db), db)
        invariant Valid() && pending == old(pending) && since == old(since) && rebuilt == old(rebuilt)
        invariant db.receipts == old(db.receipts) && db.floor == old(db.floor)
      {
        var run: string :| true;
        var now: int :| true;
        var committed: bool := *;
        var query, accepted: bool := *, *;
        ghost var before := db;
        if query {
          var _ := Query(run, now, committed, accepted);
        } else {
          var _ := Rebuild(run, committed);
        }
        EvolvesTransitive(old(db), before, db);
      }
    }

    /** Reads a segment: its packets if it decodes, none otherwise. */
    method Read(a: Artifact) returns (packets: seq<Packet>)
      ensures Numbered(packets)
    {
      packets := [];
      var n: nat :| true;
      for i := 0 to n
        invariant |packets| == i && forall k :: 0 <= k < i ==> packets[k].index == k
      {
        var p: Packet :| true;
        packets := packets + [p.(index := i)];
      }
    }

    /** One candidate of a scan: skipped if known, otherwise read and saved. */
    method Visit(a: Artifact, key: string, rebuild: bool, accepted: nat) returns (go: bool, more: nat)
      requires Valid() && busy && key == keyOf(a) && key != ""
      requires rebuild ==> a !in since
      modifies this`db, this`pending, this`since, this`rebuilt, this`insertions
      ensures Valid() && pending == old(pending) && rebuilt == old(rebuilt) && since <= old(since) + {a}
      ensures AtMost(old(db.floor), db.floor) && Evolves(old(db), db)
      ensures more <= accepted + 1 && (!rebuild && accepted <= MAX_ACCEPTED ==> more <= MAX_ACCEPTED)
    {
      hide Less, AtMost, Sound, Keyed, Once, Forgotten, Evolves;
      more := accepted;
      NotBelow(db.floor);
      EvolvesReflexive(db);
      var committed: bool := *;
      var thrown, known := Known(a, key, rebuild, committed);
      if thrown || known {
        return known, more;
      }
      if !rebuild {
        if accepted >= MAX_ACCEPTED {
          return false, more;
        }
        more := accepted + 1;
      }
      Interleave();
      ghost var before := db;
      var packets := Read(a);
      var now: int :| true;
      committed := *;
      Unindexed(db, since, keyOf, a);
      thrown := Save(a, key, packets, now, committed);
      EvolvesTransitive(old(db), before, db);
      go := !thrown;
    }

    /** One scan over the closed segments of a run, in key order. It may be cut off, by a
        failure or by the end of the process, wherever the lock is free. */
    method Scan(request: Request, entries: seq<Candidate>)
      requires Valid() && busy && Registered(entries, request.run, keyOf)
      requires request.rebuild ==> Forgotten(since, request.run)
      modifies this`db, this`pending, this`since, this`rebuilt, this`insertions
      ensures Valid() && pending == old(pending) && rebuilt == old(rebuilt)
      ensures AtMost(old(db.floor), db.floor) && Evolves(old(db), db)
    {
      hide Less, AtMost, Sound, Keyed, Windowed, Once, Forgotten, Evolves;
      NotBelow(db.floor);
      EvolvesReflexive(db);
      var window, _ := Window(entries);
      Candidates(entries, window, request.run, since, keyOf);
      var accepted := 0;
      while window != map[]
        invariant Valid() && pending == old(pending) && rebuilt == old(rebuilt)
        invariant AtMost(old(db.floor), db.floor) && Evolves(old(db), db)
        invariant forall k :: k in window ==> k == keyOf(window[k]) && k != ""
        invariant request.rebuild ==> forall k :: k in window ==> window[k] !in since
        decreases |window|
      {
        ghost var before := db;
        Interleave();
        EvolvesTransitive(old(db), before, db);
        var stop: bool := *;
        if stop {
          return;
        }
        var key := Least(window.Keys);
        var a := window[key];
        Smaller(window, key);
        window := window - {key};
        before := db;
        var go;
        go, accepted := Visit(a, key, request.rebuild, accepted);
        AtMostTransitive(old(db.floor), before.floor, db.floor);
        EvolvesTransitive(old(db), before, db);
        if !go {
          return;
        }
      }
    }

    /** The closed segments a run's manifests name when the worker reads them. */
    method Manifests(run: string) returns (entries: seq<Candidate>)
      ensures Registered(entries, run, keyOf)
    {
      entries := [];
      var n: nat :| true;
      for i := 0 to n
        invariant Registered(entries, run, keyOf)
      {
        var name: string :| true;
        var key := keyOf(Artifact(run, name));
        if key != "" {
          entries := entries + [Candidate(Artifact(run, name), key)];
        }
      }
    }

    /** The worker takes the queued request and scans; afterwards it is idle again. */
    method Work()
      requires Valid()
      modifies this
      ensures Valid() && AtMost(old(db.floor), db.floor) && rebuilt == old(rebuilt) && Evolves(old(db), db)
    {
      hide Evolves;
      NotBelow(db.floor);
      EvolvesReflexive(db);
      if busy || pending.None? {
        return;
      }
      var request := pending.value;
      pending, busy := None, true;
      var entries := Manifests(request.run);
      Scan(request, entries);
      busy := false;
    }

    /** The process ends and starts again: only the tables survive. */
    method Restart()
      requires Valid()
      modifies this`busy, this`pending
      ensures Valid()
    {
      busy, pending := false, None;
    }

    /** Any number of queries, rebuilds, scans and restarts, failing or not. The floor never
        falls, and whatever was never rebuilt was inserted at most once. */
    method Lifetime(steps: nat)
      requires Valid()
      modifies this
      ensures Valid() && AtMost(old(db.floor), db.floor) && old(rebuilt) <= rebuilt && Evolves(old(db), db)
      ensures NoRepeats(db.rows) && |Keyed(db.receipts)| <= MAX_RECEIPTS
      ensures forall a: Artifact :: a.run !in rebuilt ==> insertions[a] <= 1
    {
      hide Less, AtMost, Keyed, Evolves;
      NotBelow(db.floor);
      EvolvesReflexive(db);
      for i := 0 to steps
        invariant Valid() && AtMost(old(db.floor), db.floor) && old(rebuilt) <= rebuilt && Evolves(old(db), db)
      {
        var choice: nat :| true;
        var committed, accepted: bool := *, *;
        var run: string :| true;
        var now: int :| true;
        var floor := db.floor;
        ghost var before := db;
        if choice == 0 {
          var _ := Query(run, now, committed, accepted);
        } else if choice == 1 {
          var _ := Rebuild(run, committed);
        } else if choice == 2 {
          Restart();
        } else {
          Work();
          AtMostTransitive(old(db.floor), floor, db.floor);
        }
        EvolvesTransitive(old(db), before, db);
      }
    }
  }

  /** Inserting, retention and recycling together only append, unless the generation moves. */
  lemma SaveEvolves(c: Tables, d: Tables, e: Tables, f: Tables, now: int, a: Artifact, packets: seq<Packet>)
    requires d == WithRows(c, a, packets, |packets|, now).(receipts := d.receipts)
    requires Pruned(d, now, e) && Recycled(e, f)
    ensures Evolves(c, f)
  {
    hide Pruned, Recycled, Evolves, WithRows;
    InsertEvolves(c, d, now, a, packets);
    PrunedEvolves(d, now, e);
    RecycledEvolves(e, f);
    EvolvesTransitive(c, d, e);
    EvolvesTransitive(c, e, f);
  }

  lemma InsertEvolves(c: Tables, d: Tables, now: int, a: Artifact, packets: seq<Packet>)
    requires d == WithRows(c, a, packets, |packets|, now).(receipts := d.receipts)
    ensures Evolves(c, d)
  {
  }

  lemma RecycledEvolves(e: Tables, f: Tables)
    requires Recycled(e, f)
    ensures Evolves(e, f)
  {
  }

  /** The segment's receipt and rows were added, then retention and recycling applied. */
  ghost predicate Saved(d: Tables, a: Artifact, key: string, packets: seq<Packet>, now: int, f: Tables) {
    exists e ::
      && Pruned(WithRows(d, a, packets, |packets|, now).(receipts := d.receipts[a := key]), now, e)
      && Recycled(e, f)
  }

  lemma SoundAscends(d: Tables, since: set<Artifact>, keyOf: Artifact -> string)
    requires Sound(d, since, keyOf)
    ensures PacketTables.Ascending(d)
  {
  }

  lemma PrunedSound(d: Tables, now: int, e: Tables, since: set<Artifact>, keyOf: Artifact -> string)
    requires Sound(d, since, keyOf) && Pruned(d, now, e) && PacketTables.Ascending(e)
    ensures Sound(e, since, keyOf)
  {
    SublistSound(d, e, since, keyOf);
  }

  lemma PrunedReceipts(d: Tables, now: int, e: Tables)
    requires Pruned(d, now, e)
    ensures e.receipts == d.receipts && e.floor == d.floor
  {
  }

  lemma RecycledLimits(d: Tables, e: Tables)
    requires Recycled(d, e)
    ensures |Keyed(e.receipts)| <= MAX_RECEIPTS && AtMost(d.floor, e.floor) && e.receipts.Keys <= d.receipts.Keys
  {
  }

  lemma OnceMore(since: set<Artifact>, insertions: multiset<Artifact>, rebuilt: set<string>, a: Artifact)
    requires Once(since, insertions, rebuilt) && a !in since
    ensures Once(since + {a}, insertions + multiset{a}, rebuilt)
  {
  }

  function OtherRuns(artifacts: set<Artifact>, run: string): set<Artifact> {
    set a | a in artifacts && a.run != run
  }

  /** The tables without the run, in a new generation. */
  function Forget(d: Tables, run: string): Tables {
    d.(rows := WithoutRun(d.rows, run), generation := d.generation + 1,
       receipts := map a | a in d.receipts && a.run != run :: d.receipts[a])
  }

  function WithoutRun(rows: seq<Row>, run: string): seq<Row> {
    if rows == [] then []
    else WithoutRun(rows[..|rows| - 1], run) + (if rows[|rows| - 1].artifact.run != run then [rows[|rows| - 1]] else [])
  }

  lemma {:induction false} WithoutRunRows(rows: seq<Row>, run: string)
    requires forall i, j :: 0 <= i < j < |rows| ==> rows[i].id < rows[j].id
    ensures Sublist(WithoutRun(rows, run), rows)
    ensures forall r :: r in WithoutRun(rows, run) <==> r in rows && r.artifact.run != run
  {
    if rows != [] {
      var n := |rows| - 1;
      WithoutRunRows(rows[..n], run);
      var left := WithoutRun(rows[..n], run);
      assert rows == rows[..n] + [rows[n]];
      forall i | 0 <= i < |left| ensures left[i].id < rows[n].id {
        assert left[i] in rows[..n];
      }
    }
  }

  lemma RebuiltSound(d: Tables, e: Tables, since: set<Artifact>, keyOf: Artifact -> string, run: string)
    requires Sound(d, since, keyOf)
    requires e == Forget(d, run)
    ensures Sound(e, OtherRuns(since, run), keyOf)
    ensures |Keyed(e.receipts)| <= |Keyed(d.receipts)|
    ensures forall i :: 0 <= i < |e.rows| ==> e.rows[i].artifact.run != run
  {
    hide Less, AtMost;
    WithoutRunRows(d.rows, run);
    var f := d.(rows := e.rows);
    assert PacketTables.Ascending(f) by {
      forall i | 0 <= i < |f.rows| ensures 0 < f.rows[i].id <= f.lastId {
        assert f.rows[i] in d.rows;
      }
    }
    SublistSound(d, f, since, keyOf);
    forall i | 0 <= i < |e.rows| ensures e.rows[i].artifact.run != run {
      assert e.rows[i] in WithoutRun(d.rows, run);
    }
    assert Keyed(e.receipts) <= Keyed(d.receipts);
    SubsetCount(Keyed(e.receipts), Keyed(d.receipts));
  }

  lemma OnceRebuilt(since: set<Artifact>, insertions: multiset<Artifact>, rebuilt: set<string>, run: string)
    requires Once(since, insertions, rebuilt)
    ensures Once(OtherRuns(since, run), insertions, rebuilt + {run})
    ensures Forgotten(OtherRuns(since, run), run)
  {
  }

  /** The manifests of a run name its own segments, under their fixed keys. */
  ghost predicate Registered(entries: seq<Candidate>, run: string, keyOf: Artifact -> string) {
    forall e :: e in entries ==> e.artifact.run == run && e.key == keyOf(e.artifact) && e.key != ""
  }

  lemma NotBelow(s: string)
    ensures AtMost(s, s)
  {
    LessIrreflexive(s);
  }

  /** Segments of runs that were never rebuilt were inserted at most once. */
  ghost predicate Once(since: set<Artifact>, insertions: multiset<Artifact>, rebuilt: set<string>) {
    forall a: Artifact :: a.run !in rebuilt ==> insertions[a] == if a in since then 1 else 0
  }

  /** Nothing of the run is indexed. */
  ghost predicate Forgotten(since: set<Artifact>, run: string) {
    forall a :: a in since ==> a.run != run
  }

  lemma Candidates(entries: seq<Candidate>, window: map<string, Artifact>, run: string, since: set<Artifact>,
                   keyOf: Artifact -> string)
    requires Windowed(entries, window) && Registered(entries, run, keyOf)
    ensures forall k :: k in window ==> k == keyOf(window[k]) && k != ""
    ensures Forgotten(since, run) ==> forall k :: k in window ==> window[k] !in since
  {
    hide Less;
    forall k | k in window ensures k == keyOf(window[k]) && k != "" && window[k].run == run {
      assert Candidate(window[k], k) in entries;
    }
  }

  lemma Smaller(window: map<string, Artifact>, key: string)
    requires key in window
    ensures |window - {key}| == |window| - 1
  {
    assert (window - {key}).Keys == window.Keys - {key};
    assert |window| == |window.Keys| && |window - {key}| == |(window - {key}).Keys|;
  }

  /** A segment without a receipt and above the floor has not been indexed. */
  lemma Unindexed(d: Tables, since: set<Artifact>, keyOf: Artifact -> string, a: Artifact)
    requires Sound(d, since, keyOf) && a !in d.receipts
    ensures !AtMost(keyOf(a), d.floor) ==> a !in since
  {
  }
}
