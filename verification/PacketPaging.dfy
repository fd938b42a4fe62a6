/** Pages over the packet rows: a chain of cursors walks the rows of its first page. */
module PacketPaging {
  import opened Options
  import opened PacketTables

  /** An empty edge, node or protocol matches every row. */
  datatype Filter = Filter(run: string, edge: string, node: string, protocol: string)

  datatype Cursor = Cursor(epoch: string, filter: Filter, generation: nat, top: nat, before: nat)

  datatype Page = Page(items: seq<Row>, next: Option<Cursor>)

  datatype Reply = Success(page: Page) | CursorScope | HistoryExpired

  predicate Matches(f: Filter, r: Row) {
    && r.artifact.run == f.run
    && (f.edge == "" || r.edge == f.edge)
    && (f.node == "" || r.nodeA == f.node || r.nodeB == f.node)
    && (f.protocol == "" || r.protocol == f.protocol)
  }

  predicate Selected(f: Filter, top: nat, before: nat, r: Row) {
    Matches(f, r) && r.id <= top && r.id < before
  }

  /** The selected rows, newest first. */
  function Newest(rows: seq<Row>, f: Filter, top: nat, before: nat): seq<Row> {
    if rows == [] then []
    else
      var n := |rows| - 1;
      (if Selected(f, top, before, rows[n]) then [rows[n]] else []) + Newest(rows[..n], f, top, before)
  }

  function LastRow(d: Tables): nat {
    if d.rows == [] then 0 else d.rows[|d.rows| - 1].id
  }

  /** Where a page starts: below the newest row, or where its cursor says. */
  function Top(d: Tables, c: Option<Cursor>): nat {
    if c.Some? then c.value.top else LastRow(d)
  }

  function Before(d: Tables, c: Option<Cursor>): nat {
    if c.Some? then c.value.before else LastRow(d) + 1
  }

  /** The first `count` selected rows, newest first. */
  method Collect(rows: seq<Row>, f: Filter, top: nat, before: nat, count: nat) returns (items: seq<Row>)
    ensures var all := Newest(rows, f, top, before);
      items == all[..if |all| < count then |all| else count]
  {
    hide Newest, Selected;
    items := [];
    var i := |rows|;
    assert rows[..i] == rows;
    while i > 0 && |items| < count
      invariant 0 <= i <= |rows| && |items| <= count
      invariant items + Newest(rows[..i], f, top, before) == Newest(rows, f, top, before)
    {
      i := i - 1;
      NewestStep(rows, i, f, top, before);
      if Selected(f, top, before, rows[i]) {
        items := items + [rows[i]];
      }
    }
    if i == 0 {
      assert Newest(rows[..0], f, top, before) == [] by { NoRows(f, top, before); }
    }
  }

  lemma NewestStep(rows: seq<Row>, i: nat, f: Filter, top: nat, before: nat)
    requires i < |rows|
    ensures Newest(rows[..i + 1], f, top, before) ==
      (if Selected(f, top, before, rows[i]) then [rows[i]] else []) + Newest(rows[..i], f, top, before)
  {
    assert rows[..i + 1][..i] == rows[..i];
  }

  lemma NoRows(f: Filter, top: nat, before: nat)
    ensures Newest([], f, top, before) == []
  {
  }

  /** One page of at most `limit` rows. */
  method Query(d: Tables, epoch: string, f: Filter, limit: nat, c: Option<Cursor>) returns (r: Reply)
    requires 1 <= limit <= 200
    ensures r.CursorScope? <==> c.Some? && (c.value.filter != f || c.value.epoch != epoch)
    ensures r.HistoryExpired? <==> c.Some? && c.value.filter == f && c.value.epoch == epoch && c.value.generation != d.generation
    ensures r.Success? ==> IsPage(d, epoch, f, limit, c, r.page)
  {
    hide Newest, LastRow;
    var top, before := LastRow(d), LastRow(d) + 1;
    match c {
      case Some(cursor) =>
        if cursor.filter != f || cursor.epoch != epoch {
          return CursorScope;
        }
        if cursor.generation != d.generation {
          return HistoryExpired;
        }
        top, before := cursor.top, cursor.before;
      case None =>
    }
    var items := Collect(d.rows, f, top, before, limit + 1);
    if |items| > limit {
      items := items[..limit];
      r := Success(Page(items, Some(Cursor(epoch, f, d.generation, top, items[limit - 1].id))));
    } else {
      r := Success(Page(items, None));
    }
  }

  /** The page a query returns. */
  ghost predicate IsPage(d: Tables, epoch: string, f: Filter, limit: nat, c: Option<Cursor>, p: Page) {
    var top := Top(d, c);
    var all := Newest(d.rows, f, top, Before(d, c));
    && limit >= 1
    && (c.Some? ==> c.value.generation == d.generation)
    && (if |all| > limit
        then p == Page(all[..limit], Some(Cursor(epoch, f, d.generation, top, all[limit - 1].id)))
        else p == Page(all, None))
  }

  // ----- chains of pages -----

  /** Rows appended later do not show below the top of the chain. */
  lemma {:induction false} AppendedUnseen(rows: seq<Row>, more: seq<Row>, f: Filter, top: nat, before: nat)
    requires |rows| <= |more| && more[..|rows|] == rows
    requires forall i :: |rows| <= i < |more| ==> more[i].id > top
    ensures Newest(more, f, top, before) == Newest(rows, f, top, before)
    decreases |more|
  {
    if |rows| < |more| {
      var n := |more| - 1;
      assert more[..n][..|rows|] == rows;
      AppendedUnseen(rows, more[..n], f, top, before);
    } else {
      assert more == rows;
    }
  }

  /** Continuing below a row of the list gives the rest of the list. */
  lemma {:induction false} RestBelow(rows: seq<Row>, f: Filter, top: nat, before: nat, k: nat)
    requires forall i, j :: 0 <= i < j < |rows| ==> rows[i].id < rows[j].id
    requires k < |Newest(rows, f, top, before)|
    ensures
      var all := Newest(rows, f, top, before);
      Newest(rows, f, top, all[k].id) == all[k + 1..]
  {
    var n := |rows| - 1;
    var all, rest := Newest(rows, f, top, before), Newest(rows[..n], f, top, before);
    NewestRows(rows[..n], f, top, before);
    if Selected(f, top, before, rows[n]) {
      if k == 0 {
        AllBelow(rows[..n], f, top, before, rows[n].id);
        assert all[1..] == rest;
      } else {
        RestBelow(rows[..n], f, top, before, k - 1);
        assert all[k] == rest[k - 1] && rest[k - 1] in rest;
        assert all[k + 1..] == rest[k..];
      }
    } else {
      RestBelow(rows[..n], f, top, before, k);
      assert all == rest && rest[k] in rest;
    }
  }

  lemma {:induction false} NewestRows(rows: seq<Row>, f: Filter, top: nat, before: nat)
    ensures forall r :: r in Newest(rows, f, top, before) <==> r in rows && Selected(f, top, before, r)
  {
    if rows != [] {
      var n := |rows| - 1;
      NewestRows(rows[..n], f, top, before);
      assert rows == rows[..n] + [rows[n]];
    }
  }

  lemma {:induction false} AllBelow(rows: seq<Row>, f: Filter, top: nat, before: nat, lower: nat)
    requires lower <= before && forall i :: 0 <= i < |rows| ==> rows[i].id < lower
    ensures Newest(rows, f, top, lower) == Newest(rows, f, top, before)
  {
    if rows != [] {
      AllBelow(rows[..|rows| - 1], f, top, before, lower);
    }
  }

  /** A chain: each page continues the one before, on a later state of the tables. */
  ghost predicate Chain(states: seq<Tables>, epoch: string, f: Filter, limits: seq<nat>, pages: seq<Page>) {
    && |states| == |limits| == |pages| > 0
    && (forall i :: 0 <= i < |states| ==> PacketTables.Ascending(states[i]))
    && (forall i :: 0 <= i < |states| - 1 ==> Evolves(states[i], states[i + 1]))
    && IsPage(states[0], epoch, f, limits[0], None, pages[0])
    && (forall i :: 0 <= i < |pages| - 1 ==>
          pages[i].next.Some? && IsPage(states[i + 1], epoch, f, limits[i + 1], pages[i].next, pages[i + 1]))
  }

  function Items(pages: seq<Page>): seq<Row> {
    if pages == [] then []
    else
      var n := |pages| - 1;
      Items(pages[..n]) + pages[n].items
  }

  /** All rows of the tables that the filter matches, newest first. */
  function Snapshot(d: Tables, f: Filter): seq<Row> {
    Newest(d.rows, f, LastRow(d), LastRow(d) + 1)
  }

  lemma SnapshotRows(d: Tables, f: Filter)
    requires PacketTables.Ascending(d)
    ensures forall r :: r in Snapshot(d, f) <==> r in d.rows && Matches(f, r)
  {
    NewestRows(d.rows, f, LastRow(d), LastRow(d) + 1);
    forall r | r in d.rows ensures r.id <= LastRow(d) {
      var i :| 0 <= i < |d.rows| && d.rows[i] == r;
    }
  }

  /** What is still to come after the last page of a chain. */
  ghost function Rest(d: Tables, f: Filter, p: Page): seq<Row> {
    if p.next.Some? then Newest(d.rows, f, p.next.value.top, p.next.value.before) else []
  }

  lemma OnePage(d: Tables, epoch: string, f: Filter, limit: nat, c: Option<Cursor>, p: Page)
    requires PacketTables.Ascending(d) && IsPage(d, epoch, f, limit, c, p)
    ensures p.items + Rest(d, f, p) == Newest(d.rows, f, Top(d, c), Before(d, c))
    ensures p.next.Some? ==> p.next.value.top == Top(d, c) && p.next.value.generation == d.generation
    ensures c.Some? ==> c.value.generation == d.generation
  {
    var top, before := Top(d, c), Before(d, c);
    var all := Newest(d.rows, f, top, before);
    if |all| > limit {
      RestBelow(d.rows, f, top, before, limit - 1);
      assert all == all[..limit] + all[limit..];
    }
  }

  /** The pages of a chain and what is still to come make up the snapshot of the first page:
      no gap, no repeat, whatever was inserted meanwhile. */
  lemma {:induction false} ChainWalksSnapshot(states: seq<Tables>, epoch: string, f: Filter, limits: seq<nat>, pages: seq<Page>)
    requires Chain(states, epoch, f, limits, pages)
    ensures
      var last := pages[|pages| - 1];
      && Items(pages) + Rest(states[0], f, last) == Snapshot(states[0], f)
      && states[|states| - 1].generation == states[0].generation && Evolves(states[0], states[|states| - 1])
      && (last.next.Some? ==> last.next.value.top == LastRow(states[0]) && last.next.value.generation == states[0].generation)
    decreases |pages|
  {
    hide Newest, IsPage, Evolves, PacketTables.Ascending, LastRow;
    var n := |pages| - 1;
    if n == 0 {
      OnePage(states[0], epoch, f, limits[0], None, pages[0]);
      assert Items(pages) == pages[0].items;
      EvolvesReflexive(states[0]);
    } else {
      Shorter(states, epoch, f, limits, pages);
      ChainWalksSnapshot(states[..n], epoch, f, limits[..n], pages[..n]);
      Joined(states[0], states[n - 1], states[n], epoch, f, limits[n], pages[n - 1], pages[n]);
      assert Items(pages) == Items(pages[..n]) + pages[n].items;
    }
  }

  lemma Shorter(states: seq<Tables>, epoch: string, f: Filter, limits: seq<nat>, pages: seq<Page>)
    requires Chain(states, epoch, f, limits, pages) && |pages| > 1
    ensures var n := |pages| - 1;
      Chain(states[..n], epoch, f, limits[..n], pages[..n])
      && Evolves(states[n - 1], states[n]) && PacketTables.Ascending(states[n])
      && pages[n - 1].next.Some? && IsPage(states[n], epoch, f, limits[n], pages[n - 1].next, pages[n])
  {
    hide Newest, IsPage, Evolves, PacketTables.Ascending;
    var n := |pages| - 1;
    assert pages[n - 1].next.Some?;
    assert Evolves(states[n - 1], states[n - 1 + 1]);
  }

  /** The next page takes its part of what was still to come. */
  lemma Joined(first: Tables, d: Tables, e: Tables, epoch: string, f: Filter, limit: nat, p: Page, q: Page)
    requires PacketTables.Ascending(first) && PacketTables.Ascending(e)
    requires Evolves(first, d) && Evolves(d, e) && p.next.Some? && IsPage(e, epoch, f, limit, p.next, q)
    requires p.next.value.top == LastRow(first) && p.next.value.generation == first.generation
    ensures Rest(first, f, p) == q.items + Rest(first, f, q)
    ensures e.generation == first.generation && Evolves(first, e)
    ensures q.next.Some? ==> q.next.value.top == LastRow(first) && q.next.value.generation == first.generation
  {
    hide Newest, LastRow, Evolves, PacketTables.Ascending;
    var c := p.next;
    EvolvesTransitive(first, d, e);
    OnePage(e, epoch, f, limit, c, q);
    LaterRows(first, e, f, c.value.top, c.value.before);
    if q.next.Some? {
      LaterRows(first, e, f, q.next.value.top, q.next.value.before);
    }
  }

  lemma LaterRows(d: Tables, e: Tables, f: Filter, top: nat, before: nat)
    requires PacketTables.Ascending(d) && Evolves(d, e) && d.generation == e.generation && top == LastRow(d)
    ensures Newest(e.rows, f, top, before) == Newest(d.rows, f, top, before)
  {
    AppendedUnseen(d.rows, e.rows, f, top, before);
  }

  /** A finished chain returned exactly the matching rows that were there at its first page,
      newest first. */
  lemma {:induction false} FinishedChain(states: seq<Tables>, epoch: string, f: Filter, limits: seq<nat>, pages: seq<Page>)
    requires Chain(states, epoch, f, limits, pages) && pages[|pages| - 1].next.None?
    ensures Items(pages) == Snapshot(states[0], f)
    ensures forall r :: r in Items(pages) <==> r in states[0].rows && Matches(f, r)
    ensures Descending(Items(pages))
  {
    hide Newest, IsPage, Evolves;
    ChainWalksSnapshot(states, epoch, f, limits, pages);
    SnapshotRows(states[0], f);
    NewestDescends(states[0].rows, f, LastRow(states[0]), LastRow(states[0]) + 1);
  }

  /** Newest first, none twice. */
  ghost predicate Descending(s: seq<Row>) {
    forall i, j :: 0 <= i < j < |s| ==> s[i].id > s[j].id
  }

  lemma {:induction false} NewestDescends(rows: seq<Row>, f: Filter, top: nat, before: nat)
    requires forall i, j :: 0 <= i < j < |rows| ==> rows[i].id < rows[j].id
    ensures Descending(Newest(rows, f, top, before))
  {
    if rows != [] {
      var n := |rows| - 1;
      var rest := Newest(rows[..n], f, top, before);
      NewestDescends(rows[..n], f, top, before);
      NewestRows(rows[..n], f, top, before);
      forall k | 0 <= k < |rest| ensures rest[k].id < rows[n].id {
        assert rest[k] in rest;
        assert rest[k] in rows[..n];
      }
      assert Descending([rows[n]] + rest);
      assert Newest(rows, f, top, before) == (if Selected(f, top, before, rows[n]) then [rows[n]] else []) + rest;
      assert [] + rest == rest;
    }
  }

  /** If any row of the first page's tables has been deleted, the cursor is refused. */
  lemma DeletionExpires(states: seq<Tables>, epoch: string, f: Filter, limits: seq<nat>, pages: seq<Page>,
                        later: Tables, r: Row, limit: nat, p: Page)
    requires Chain(states, epoch, f, limits, pages) && pages[|pages| - 1].next.Some?
    requires Evolves(states[|states| - 1], later) && r in states[0].rows && r !in later.rows
    ensures !IsPage(later, epoch, f, limit, pages[|pages| - 1].next, p)
  {
    ChainWalksSnapshot(states, epoch, f, limits, pages);
    EvolvesTransitive(states[0], states[|states| - 1], later);
    DeletionShows(states[0], later, r);
  }
}
