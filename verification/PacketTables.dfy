/** The tables of the derived packet index, and the two ways rows leave them:
    retention of packet rows and recycling of segment receipts. */
module PacketTables {
  import opened Ordering

  /** A capture segment of a run. */
  datatype Artifact = Artifact(run: string, name: string)

  datatype Row = Row(id: nat, artifact: Artifact, index: nat, edge: string, nodeA: string, nodeB: string,
                     protocol: string, time: int, size: nat)

  /** `receipts` records which segments are indexed, with their order key; version 1 of the
      tables had no order key, and its receipts carry the empty one. */
  datatype Tables = Tables(receipts: map<Artifact, string>, floor: string, retired: nat,
                           rows: seq<Row>, lastId: nat, generation: nat)

  const MAX_RECEIPTS := 1000
  const MAX_ROWS := 20000
  const MAX_BYTES := 16 * 1024 * 1024
  const DAY := 86400

  predicate AtMost(a: string, b: string) {
    !Less(b, a)
  }

  lemma AtMostTransitive(a: string, b: string, c: string)
    requires AtMost(a, b) && AtMost(b, c)
    ensures AtMost(a, c)
  {
    hide Less;
    if Less(c, a) {
      LessTotal(a, b);
      LessTotal(b, c);
      if Less(a, b) {
        LessTransitive(c, a, b);
      }
    }
  }

  // ----- receipts -----

  function Keyed(receipts: map<Artifact, string>): set<Artifact> {
    set a | a in receipts && receipts[a] != ""
  }

  /** The keyed receipt that sorts last. */
  method Latest(receipts: map<Artifact, string>, from: set<Artifact>) returns (a: Artifact)
    requires from <= receipts.Keys && from != {}
    ensures a in from && forall b :: b in from ==> AtMost(receipts[b], receipts[a])
  {
    hide Less;
    a :| a in from;
    LessIrreflexive(receipts[a]);
    var rest := from - {a};
    while rest != {}
      invariant rest <= from && a in from
      invariant forall b :: b in from - rest ==> AtMost(receipts[b], receipts[a])
      decreases rest
    {
      var c :| c in rest;
      LessIrreflexive(receipts[c]);
      if Less(receipts[a], receipts[c]) {
        forall b | b in from - rest ensures AtMost(receipts[b], receipts[c]) {
          LessIrreflexive(receipts[a]);
          if Less(receipts[c], receipts[a]) {
            LessTransitive(receipts[a], receipts[c], receipts[a]);
          }
          AtMostTransitive(receipts[b], receipts[a], receipts[c]);
        }
        a := c;
      }
      rest := rest - {c};
    }
  }

  /** At most `MAX_RECEIPTS` keyed receipts sort after `key`; with it there are more. */
  ghost predicate Boundary(receipts: map<Artifact, string>, key: string) {
    && |Above(receipts, key)| <= MAX_RECEIPTS < |Keyed(receipts)|
    && (exists a :: a in Keyed(receipts) && receipts[a] == key)
  }

  function Above(receipts: map<Artifact, string>, key: string): set<Artifact> {
    set a | a in Keyed(receipts) && Less(key, receipts[a])
  }

  /** The keyed receipt after the first `MAX_RECEIPTS` in descending order, if there is one. */
  method FindBoundary(receipts: map<Artifact, string>) returns (found: bool, key: string)
    ensures found <==> |Keyed(receipts)| > MAX_RECEIPTS
    ensures found ==> Boundary(receipts, key)
  {
    hide Split, Boundary, Keyed, Less, AtMost;
    var rest := Keyed(receipts);
    ghost var taken: set<Artifact> := {};
    var n := 0;
    SplitStart(receipts);
    while n < MAX_RECEIPTS && rest != {}
      invariant 0 <= n <= MAX_RECEIPTS && |taken| == n && rest <= receipts.Keys
      invariant Split(receipts, rest, taken)
    {
      var a := Latest(receipts, rest);
      SplitStep(receipts, rest, taken, a);
      rest, taken, n := rest - {a}, taken + {a}, n + 1;
    }
    SplitCount(receipts, rest, taken);
    if rest == {} {
      return false, "";
    }
    var last := Latest(receipts, rest);
    SplitBoundary(receipts, rest, taken, last);
    found, key := true, receipts[last];
  }

  /** The receipts in `taken` sort at or after those in `rest`. */
  ghost predicate Split(receipts: map<Artifact, string>, rest: set<Artifact>, taken: set<Artifact>) {
    && rest + taken == Keyed(receipts) && rest !! taken
    && (forall a, b :: a in rest && b in taken ==> AtMost(receipts[a], receipts[b]))
  }

  lemma SplitStart(receipts: map<Artifact, string>)
    ensures Split(receipts, Keyed(receipts), {}) && Keyed(receipts) <= receipts.Keys
  {
  }

  lemma SplitStep(receipts: map<Artifact, string>, rest: set<Artifact>, taken: set<Artifact>, a: Artifact)
    requires Split(receipts, rest, taken) && a in rest && rest <= receipts.Keys
    requires forall b :: b in rest ==> AtMost(receipts[b], receipts[a])
    ensures Split(receipts, rest - {a}, taken + {a}) && a !in taken
  {
    hide AtMost;
  }

  lemma SplitCount(receipts: map<Artifact, string>, rest: set<Artifact>, taken: set<Artifact>)
    requires Split(receipts, rest, taken)
    ensures |Keyed(receipts)| == |rest| + |taken|
  {
    hide AtMost, Keyed;
  }

  lemma SplitBoundary(receipts: map<Artifact, string>, rest: set<Artifact>, taken: set<Artifact>, last: Artifact)
    requires Split(receipts, rest, taken) && last in rest && rest <= receipts.Keys && |taken| == MAX_RECEIPTS
    requires forall b :: b in rest ==> AtMost(receipts[b], receipts[last])
    ensures Boundary(receipts, receipts[last])
  {
    hide Less;
    var above := Above(receipts, receipts[last]);
    assert above <= taken;
    SubsetCount(above, taken);
    SplitCount(receipts, rest, taken);
    assert |rest| > 0;
    assert last in Keyed(receipts);
  }

  lemma SubsetCount<T>(a: set<T>, b: set<T>)
    requires a <= b
    ensures |a| <= |b|
  {
    assert |b| == |a| + |b - a|;
  }

  /** The receipts left after removing the keyed ones up to `key`. */
  function Remaining(receipts: map<Artifact, string>, key: string): map<Artifact, string> {
    map a | a in receipts && (receipts[a] == "" || Less(key, receipts[a])) :: receipts[a]
  }

  /** What recycling leaves: at most the limit of keyed receipts, every receipt that went at or
      below the floor, and a floor that has not fallen. */
  ghost predicate Recycled(d: Tables, e: Tables) {
    && e == d.(receipts := e.receipts, floor := e.floor, retired := e.retired)
    && e.receipts.Keys <= d.receipts.Keys && (forall a :: a in e.receipts ==> e.receipts[a] == d.receipts[a])
    && AtMost(d.floor, e.floor)
    && (forall a :: a in d.receipts && a !in e.receipts ==> d.receipts[a] != "" && AtMost(d.receipts[a], e.floor))
    && |Keyed(e.receipts)| <= MAX_RECEIPTS
    && e.retired == d.retired + (|d.receipts| - |e.receipts|)
  }

  method Recycle(d: Tables) returns (e: Tables)
    ensures Recycled(d, e)
  {
    hide Less;
    LessIrreflexive(d.floor);
    var found, key := FindBoundary(d.receipts);
    if !found {
      return d;
    }
    LessIrreflexive(key);
    var floor := if Less(d.floor, key) then key else d.floor;
    var gone := set a | a in d.receipts && d.receipts[a] != "" && AtMost(d.receipts[a], key);
    e := d.(receipts := Remaining(d.receipts, key), floor := floor, retired := d.retired + |gone|);
    RecycleCounts(d.receipts, key, gone);
    KeptOrder(d.floor, key, floor);
    forall a | a in d.receipts && a !in e.receipts ensures AtMost(d.receipts[a], e.floor) {
      AtMostTransitive(d.receipts[a], key, floor);
    }
  }

  lemma KeptOrder(was: string, key: string, floor: string)
    requires floor == if Less(was, key) then key else was
    ensures AtMost(was, floor) && AtMost(key, floor)
  {
    LessIrreflexive(was);
    LessIrreflexive(key);
    if Less(was, key) && Less(key, was) {
      LessTransitive(was, key, was);
    }
  }

  lemma RecycleCounts(receipts: map<Artifact, string>, key: string, gone: set<Artifact>)
    requires gone == set a | a in receipts && receipts[a] != "" && AtMost(receipts[a], key)
    ensures |gone| == |receipts| - |Remaining(receipts, key)|
    ensures Keyed(Remaining(receipts, key)) == Above(receipts, key)
  {
    hide Less;
    var left := Remaining(receipts, key);
    assert left.Keys + gone == receipts.Keys && left.Keys !! gone;
    assert |receipts| == |receipts.Keys| && |left| == |left.Keys|;
  }

  // ----- packet rows -----

  function Bytes(rows: seq<Row>): nat {
    if rows == [] then 0 else rows[0].size + Bytes(rows[1..])
  }

  /** Row identifiers ascend and were all handed out by the counter. */
  ghost predicate Ascending(d: Tables) {
    && (forall i, j :: 0 <= i < j < |d.rows| ==> d.rows[i].id < d.rows[j].id)
    && (forall i :: 0 <= i < |d.rows| ==> 0 < d.rows[i].id <= d.lastId)
  }

  /** `s` is `r` without some rows. */
  ghost predicate Sublist(s: seq<Row>, r: seq<Row>) {
    (forall x :: x in s ==> x in r) && (forall i, j :: 0 <= i < j < |s| ==> s[i].id < s[j].id)
  }

  function Unexpired(rows: seq<Row>, now: int): seq<Row> {
    if rows == [] then []
    else
      var n := |rows| - 1;
      Unexpired(rows[..n], now) + (if rows[n].time >= now - DAY then [rows[n]] else [])
  }

  function Limited(rows: seq<Row>): seq<Row> {
    if |rows| > MAX_ROWS then rows[|rows| - MAX_ROWS..] else rows
  }

  /** The oldest rows go, 2000 at a time, until the rest fits. */
  function Trimmed(rows: seq<Row>): seq<Row> {
    if Bytes(rows) <= MAX_BYTES || rows == [] then rows
    else Trimmed(rows[if |rows| < 2000 then |rows| else 2000..])
  }

  /** What retention leaves: of the recent rows the latest that fit the count and byte limits;
      the generation moves exactly when a row went. */
  ghost predicate Pruned(d: Tables, now: int, e: Tables) {
    && e == d.(rows := Trimmed(Limited(Unexpired(d.rows, now))), generation := e.generation)
    && Sublist(e.rows, d.rows)
    && (forall i :: 0 <= i < |e.rows| ==> e.rows[i].time >= now - DAY)
    && |e.rows| <= MAX_ROWS && Bytes(e.rows) <= MAX_BYTES
    && e.generation == d.generation + (if e.rows == d.rows then 0 else 1)
  }

  /** Ascending rows taken from `from` and no older than the limit. */
  ghost predicate Recent(rows: seq<Row>, from: seq<Row>, now: int) {
    && (forall i, j :: 0 <= i < j < |rows| ==> rows[i].id < rows[j].id)
    && (forall k :: 0 <= k < |rows| ==> rows[k] in from && rows[k].time >= now - DAY)
  }

  method Expire(d: Tables, now: int) returns (rows: seq<Row>)
    requires Ascending(d)
    ensures Recent(rows, d.rows, now) && |rows| <= |d.rows| && (|rows| == |d.rows| ==> rows == d.rows)
    ensures rows == Unexpired(d.rows, now)
  {
    rows := [];
    for i := 0 to |d.rows|
      invariant rows == Unexpired(d.rows[..i], now)
      invariant |rows| <= i && (|rows| == i ==> rows == d.rows[..i])
      invariant Recent(rows, d.rows, now)
      invariant forall k :: 0 <= k < |rows| && i < |d.rows| ==> rows[k].id < d.rows[i].id
    {
      assert d.rows[..i + 1] == d.rows[..i] + [d.rows[i]] && d.rows[..i + 1][..i] == d.rows[..i];
      if d.rows[i].time >= now - DAY {
        rows := rows + [d.rows[i]];
      }
    }
    assert d.rows[..|d.rows|] == d.rows;
  }

  lemma Drop(rows: seq<Row>, from: seq<Row>, now: int, n: nat)
    requires Recent(rows, from, now) && n <= |rows|
    ensures Recent(rows[n..], from, now)
  {
  }

  method Prune(d: Tables, now: int) returns (e: Tables)
    requires Ascending(d)
    ensures Pruned(d, now, e) && Ascending(e)
  {
    hide Recent, Bytes, Trimmed, Unexpired;
    var rows := Expire(d, now);
    var changed := |rows| < |d.rows|;
    if |rows| > MAX_ROWS {
      Drop(rows, d.rows, now, |rows| - MAX_ROWS);
      rows, changed := rows[|rows| - MAX_ROWS..], true;
    }
    ghost var limited := Limited(Unexpired(d.rows, now));
    assert rows == limited;
    while Bytes(rows) > MAX_BYTES
      invariant Trimmed(rows) == Trimmed(limited)
      invariant |rows| <= MAX_ROWS && |rows| <= |d.rows| && (changed <==> |rows| < |d.rows|)
      invariant !changed ==> rows == d.rows
      invariant Recent(rows, d.rows, now)
      decreases |rows|
    {
      assert rows != [] by { NoBytes(rows); }
      var n := if |rows| < 2000 then |rows| else 2000;
      Drop(rows, d.rows, now, n);
      TrimmedStep(rows);
      rows, changed := rows[n..], true;
    }
    TrimmedStep(rows);
    e := d.(rows := rows, generation := if changed then d.generation + 1 else d.generation);
    RecentRows(d, rows, now);
  }

  lemma TrimmedStep(rows: seq<Row>)
    ensures Bytes(rows) <= MAX_BYTES ==> Trimmed(rows) == rows
    ensures Bytes(rows) > MAX_BYTES ==> Trimmed(rows) == Trimmed(rows[if |rows| < 2000 then |rows| else 2000..])
  {
  }

  lemma NoBytes(rows: seq<Row>)
    ensures rows == [] ==> Bytes(rows) == 0
  {
  }

  lemma RecentRows(d: Tables, rows: seq<Row>, now: int)
    requires Ascending(d) && Recent(rows, d.rows, now)
    ensures Sublist(rows, d.rows) && Ascending(d.(rows := rows))
    ensures forall i :: 0 <= i < |rows| ==> rows[i].time >= now - DAY
  {
    forall i | 0 <= i < |rows| ensures 0 < rows[i].id <= d.lastId {
      assert rows[i] in d.rows;
    }
  }

  // ----- how the tables change -----

  /** `e` is a later state of `d`: as long as the generation is the same, rows were only
      appended, under identifiers not handed out before. */
  ghost predicate Evolves(d: Tables, e: Tables) {
    && d.lastId <= e.lastId && d.generation <= e.generation
    && (d.generation == e.generation ==>
          && |d.rows| <= |e.rows| && e.rows[..|d.rows|] == d.rows
          && (forall i :: |d.rows| <= i < |e.rows| ==> e.rows[i].id > d.lastId))
  }

  lemma EvolvesReflexive(d: Tables)
    ensures Evolves(d, d)
  {
  }

  lemma EvolvesTransitive(d: Tables, e: Tables, f: Tables)
    requires Evolves(d, e) && Evolves(e, f)
    ensures Evolves(d, f)
  {
    if d.generation == f.generation {
      assert f.rows[..|d.rows|] == f.rows[..|e.rows|][..|d.rows|];
      forall i | |d.rows| <= i < |f.rows| ensures f.rows[i].id > d.lastId {
        if i < |e.rows| {
          assert f.rows[..|e.rows|][i] == e.rows[i];
        }
      }
    }
  }

  lemma PrunedEvolves(d: Tables, now: int, e: Tables)
    requires Pruned(d, now, e)
    ensures Evolves(d, e)
  {
  }

  /** Once a row is gone the generation has moved. */
  lemma DeletionShows(d: Tables, e: Tables, r: Row)
    requires Evolves(d, e) && r in d.rows && r !in e.rows
    ensures e.generation > d.generation
  {
    assert forall k :: 0 <= k <= |e.rows| && r in e.rows[..k] ==> r in e.rows;
  }
}
