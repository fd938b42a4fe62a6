/** The switch-loop rule of the topology validator: union-find over the links
    between switches, compared with cycles in the graph itself. */
module LoopPolicy {

  type Name = string

  /** A link between two switches. Links of a topology have distinct identifiers. */
  datatype Link = Link(id: string, a: Name, b: Name)

  predicate Joins(l: Link, x: Name, y: Name) {
    (l.a == x && l.b == y) || (l.a == y && l.b == x)
  }

  // ----- paths and cycles -----

  /** `q[k]` leads from `p[k]` to `p[k + 1]`. */
  ghost predicate Path(es: set<Link>, p: seq<Name>, q: seq<Link>) {
    && |p| == |q| + 1
    && (forall k :: 0 <= k < |q| ==> q[k] in es && Joins(q[k], p[k], p[k + 1]))
  }

  ghost predicate Distinct(q: seq<Link>) {
    forall i, j :: 0 <= i < j < |q| ==> q[i] != q[j]
  }

  ghost predicate Connected(es: set<Link>, x: Name, y: Name) {
    exists p, q :: Path(es, p, q) && p[0] == x && p[|q|] == y
  }

  /** A closed path that uses no link twice: self-links and parallel links included. */
  ghost predicate Cycle(es: set<Link>, p: seq<Name>, q: seq<Link>) {
    Path(es, p, q) && Distinct(q) && |q| > 0 && p[0] == p[|q|]
  }

  /** The component of `v` contains a cycle. */
  ghost predicate InLoop(es: set<Link>, v: Name) {
    exists p, q :: Cycle(es, p, q) && Connected(es, v, p[0])
  }

  // ----- connectivity, link by link -----

  /** Adding a link joins exactly the components of its two ends. */
  ghost predicate Conn(es: seq<Link>, x: Name, y: Name) {
    if es == [] then x == y
    else
      var e, f := es[|es| - 1], es[..|es| - 1];
      Conn(f, x, y) || (Conn(f, x, e.a) && Conn(f, e.b, y)) || (Conn(f, x, e.b) && Conn(f, e.a, y))
  }

  lemma {:induction false} ConnReflexive(es: seq<Link>, x: Name)
    ensures Conn(es, x, x)
  {
    if es != [] {
      ConnReflexive(es[..|es| - 1], x);
    }
  }

  lemma {:induction false} ConnSymmetric(es: seq<Link>, x: Name, y: Name)
    requires Conn(es, x, y)
    ensures Conn(es, y, x)
  {
    if es != [] {
      var f := es[..|es| - 1];
      forall u, v | Conn(f, u, v) ensures Conn(f, v, u) {
        ConnSymmetric(f, u, v);
      }
    }
  }

  lemma {:induction false} ConnTransitive(es: seq<Link>, x: Name, y: Name, z: Name)
    requires Conn(es, x, y) && Conn(es, y, z)
    ensures Conn(es, x, z)
  {
    if es != [] {
      var e, f := es[|es| - 1], es[..|es| - 1];
      forall u, v, w | Conn(f, u, v) && Conn(f, v, w) ensures Conn(f, u, w) {
        ConnTransitive(f, u, v, w);
      }
      forall u, v | Conn(f, u, v) ensures Conn(f, v, u) {
        ConnSymmetric(f, u, v);
      }
      ConnReflexive(f, e.a);
      ConnReflexive(f, e.b);
    }
  }

  lemma {:induction false} ConnAppend(es: seq<Link>, e: Link, x: Name, y: Name)
    ensures Conn(es + [e], x, y) <==>
      Conn(es, x, y) || (Conn(es, x, e.a) && Conn(es, e.b, y)) || (Conn(es, x, e.b) && Conn(es, e.a, y))
  {
    var n := es + [e];
    assert n[..|n| - 1] == es;
  }

  lemma {:induction false} ConnLink(es: seq<Link>, l: Link, x: Name, y: Name)
    requires l in es && Joins(l, x, y)
    ensures Conn(es, x, y)
  {
    var e, f := es[|es| - 1], es[..|es| - 1];
    if l == e {
      ConnReflexive(f, e.a);
      ConnReflexive(f, e.b);
    } else {
      ConnLink(f, l, x, y);
    }
  }

  /** Every path stays within a component. */
  lemma {:induction false} PathConn(es: seq<Link>, p: seq<Name>, q: seq<Link>)
    requires Path(Links(es), p, q)
    ensures Conn(es, p[0], p[|q|])
    decreases |q|
  {
    if q == [] {
      ConnReflexive(es, p[0]);
    } else {
      var n := |q| - 1;
      PathConn(es, p[..|q|], q[..n]);
      ConnLink(es, q[n], p[n], p[n + 1]);
      ConnTransitive(es, p[0], p[n], p[n + 1]);
    }
  }

  function Links(es: seq<Link>): set<Link> {
    set l | l in es
  }

  /** A component is spanned by paths that repeat no link. */
  lemma {:induction false} ConnPath(es: seq<Link>, x: Name, y: Name) returns (p: seq<Name>, q: seq<Link>)
    requires Conn(es, x, y) && Distinct(es)
    ensures Path(Links(es), p, q) && Distinct(q) && p[0] == x && p[|q|] == y
    decreases |es|, 0
  {
    if es == [] {
      p, q := [x], [];
    } else {
      var e, f := es[|es| - 1], es[..|es| - 1];
      assert e !in f;
      if Conn(f, x, y) {
        p, q := ConnPath(f, x, y);
      } else if Conn(f, x, e.a) && Conn(f, e.b, y) {
        p, q := ThroughLink(f, e, x, e.a, e.b, y);
      } else {
        p, q := ThroughLink(f, e, x, e.b, e.a, y);
      }
      assert Links(f) + {e} == Links(es);
    }
  }

  lemma ThroughLink(f: seq<Link>, e: Link, x: Name, u: Name, v: Name, y: Name) returns (p: seq<Name>, q: seq<Link>)
    requires Distinct(f) && e !in f && Joins(e, u, v)
    requires !Conn(f, x, y) && Conn(f, x, u) && Conn(f, v, y)
    ensures Path(Links(f) + {e}, p, q) && Distinct(q) && p[0] == x && p[|q|] == y
    decreases |f|, 1
  {
    var p1, q1 := ConnPath(f, x, u);
    var p2, q2 := ConnPath(f, v, y);
    p, q := p1 + p2, q1 + [e] + q2;
    forall i, j | 0 <= i < |q1| && 0 <= j < |q2| ensures q1[i] != q2[j] {
      if q1[i] == q2[j] {
        PathNode(f, p1, q1, i);
        PathNode(f, p2, q2, j);
        assert Joins(q1[i], p1[i], p1[i + 1]) && Joins(q2[j], p2[j], p2[j + 1]);
        SharedLink(f, x, y, q1[i], p1[i], p2[j], v);
      }
    }
  }

  /** Node `i` of a path is connected to its start. */
  lemma PathNode(es: seq<Link>, p: seq<Name>, q: seq<Link>, i: nat)
    requires Path(Links(es), p, q) && i < |q|
    ensures Conn(es, p[0], p[i])
  {
    PathConn(es, p[..i + 1], q[..i]);
  }

  lemma SharedLink(f: seq<Link>, x: Name, y: Name, l: Link, u: Name, w: Name, v: Name)
    requires l in f && (l.a == u || l.b == u) && (l.a == w || l.b == w)
    requires Conn(f, x, u) && Conn(f, v, w) && Conn(f, v, y)
    ensures Conn(f, x, y)
  {
    if u == w {
      ConnReflexive(f, u);
    } else {
      ConnLink(f, l, u, w);
    }
    ConnTransitive(f, x, u, w);
    ConnSymmetric(f, v, w);
    ConnTransitive(f, x, w, v);
    ConnTransitive(f, x, v, y);
  }

  lemma ConnIsConnected(es: seq<Link>, x: Name, y: Name)
    requires Distinct(es)
    ensures Conn(es, x, y) <==> Connected(Links(es), x, y)
  {
    if Conn(es, x, y) {
      var p, q := ConnPath(es, x, y);
    }
    if Connected(Links(es), x, y) {
      var p, q :| Path(Links(es), p, q) && p[0] == x && p[|q|] == y;
      PathConn(es, p, q);
    }
  }

  // ----- cycles, link by link -----

  /** Both ends of link `j` are already connected when it is considered. */
  ghost predicate Closes(es: seq<Link>, j: nat) {
    j < |es| && Conn(es[..j], es[j].a, es[j].b)
  }

  /** Some link of `v`'s component closes a cycle. */
  ghost predicate Flagged(es: seq<Link>, v: Name) {
    exists j: nat :: Closes(es, j) && Conn(es, v, es[j].a)
  }

  function Without(es: seq<Link>, i: nat): seq<Link>
    requires i < |es|
  {
    es[..i] + es[i + 1..]
  }

  lemma ConnWithin(es: seq<Link>, fs: seq<Link>, x: Name, y: Name)
    requires Distinct(es) && Links(es) <= Links(fs) && Conn(es, x, y)
    ensures Conn(fs, x, y)
  {
    var p, q := ConnPath(es, x, y);
    PathConn(fs, p, q);
  }

  /** A link whose ends stay connected without it lies in a component where some
      link closes a cycle in the order of the list. */
  lemma {:induction false} NonBridgeIsFlagged(es: seq<Link>, i: nat)
    requires Distinct(es) && i < |es|
    requires Conn(Without(es, i), es[i].a, es[i].b)
    ensures Flagged(es, es[i].a)
    decreases |es|
  {
    hide Conn;
    var n := |es| - 1;
    var e, f := es[n], es[..n];
    ConnReflexive(es, es[i].a);
    if i == n {
      assert Without(es, i) == f;
      assert Closes(es, n);
    } else {
      var g := Without(f, i);
      var h := Without(es, i);
      assert h == g + [e];
      var a, b := es[i].a, es[i].b;
      ConnAppend(g, e, a, b);
      if Conn(g, a, b) {
        assert f[i] == es[i];
        NonBridgeIsFlagged(f, i);
        var j: nat :| Closes(f, j) && Conn(f, a, f[j].a);
        assert f[..j] == es[..j] && f[j] == es[j];
        assert Closes(es, j);
        assert es == f + [e];
        ConnAppend(f, e, a, f[j].a);
      } else {
        EndsMeet(f, i, e);
        assert Closes(es, n);
        assert es == f + [e];
        ConnAppend(f, e, a, e.a);
      }
    }
  }

  /** If link `e` is what reconnects the ends of link `i`, then link `i` connects
      the ends of `e`. */
  lemma EndsMeet(f: seq<Link>, i: nat, e: Link)
    requires Distinct(f) && i < |f|
    requires
      var g, a, b := Without(f, i), f[i].a, f[i].b;
      (Conn(g, a, e.a) && Conn(g, e.b, b)) || (Conn(g, a, e.b) && Conn(g, e.a, b))
    ensures Conn(f, e.a, e.b) && Conn(f, f[i].a, e.a)
  {
    var g, a, b := Without(f, i), f[i].a, f[i].b;
    ConnLink(f, f[i], a, b);
    assert forall l :: l in g ==> l in f;
    var x, y := if Conn(g, a, e.a) && Conn(g, e.b, b) then e.a else e.b,
                if Conn(g, a, e.a) && Conn(g, e.b, b) then e.b else e.a;
    ConnWithin(g, f, a, x);
    ConnWithin(g, f, y, b);
    ConnSymmetric(f, y, b);
    ConnTransitive(f, a, b, y);
    ConnSymmetric(f, a, x);
    ConnTransitive(f, x, a, y);
    ConnSymmetric(f, x, y);
  }

  /** The component of `v` has a closing link exactly when it contains a cycle:
      which link closes depends on the order of the list, that there is one does not. */
  lemma FlaggedIsLoop(es: seq<Link>, v: Name)
    requires Distinct(es)
    ensures Flagged(es, v) <==> InLoop(Links(es), v)
  {
    if Flagged(es, v) {
      var j: nat :| Closes(es, j) && Conn(es, v, es[j].a);
      ClosingCycle(es, j);
      var p, q :| Cycle(Links(es), p, q) && p[0] == es[j].a;
      ConnIsConnected(es, v, p[0]);
    }
    if InLoop(Links(es), v) {
      var p, q :| Cycle(Links(es), p, q) && Connected(Links(es), v, p[0]);
      ConnIsConnected(es, v, p[0]);
      CycleFlagged(es, p, q);
      var j: nat :| Closes(es, j) && Conn(es, p[0], es[j].a);
      ConnTransitive(es, v, p[0], es[j].a);
    }
  }

  lemma ClosingCycle(es: seq<Link>, j: nat)
    requires Distinct(es) && Closes(es, j)
    ensures exists p, q :: Cycle(Links(es), p, q) && p[0] == es[j].a
  {
    var f, e := es[..j], es[j];
    ConnSymmetric(f, e.a, e.b);
    var p, q := ConnPath(f, e.b, e.a);
    var p', q' := [e.a] + p, [e] + q;
    assert forall k :: 0 <= k < |q| ==> q[k] in Links(f) && q[k] != e;
    assert Cycle(Links(es), p', q');
  }

  lemma CycleFlagged(es: seq<Link>, p: seq<Name>, q: seq<Link>)
    requires Distinct(es) && Cycle(Links(es), p, q)
    ensures Flagged(es, p[0])
  {
    var l := q[0];
    assert l in es;
    var i :| 0 <= i < |es| && es[i] == l;
    var g := Without(es, i);
    forall k | 1 <= k < |q| ensures q[k] in g {
      var m :| 0 <= m < |es| && es[m] == q[k];
      assert g[if m < i then m else m - 1] == q[k];
    }
    assert Path(Links(g), p[1..], q[1..]);
    PathConn(g, p[1..], q[1..]);
    ConnSymmetric(g, p[1], p[0]);
    NonBridgeIsFlagged(es, i);
    if p[0] != l.a {
      ConnLink(es, l, p[0], l.a);
      var j: nat :| Closes(es, j) && Conn(es, l.a, es[j].a);
      ConnTransitive(es, p[0], l.a, es[j].a);
    }
  }

  // ----- union-find -----

  /** What the rule needs of a node: whether it is a switch, and whether a switch
      has rapid spanning tree enabled. */
  datatype Node = Switch(rstp: bool) | Workload

  predicate Declared(nodes: map<Name, Node>, es: seq<Link>) {
    forall e :: e in es ==> e.a in nodes && e.b in nodes
  }

  /** The edges between two switches; the rest are not examined. */
  ghost function SwitchSet(nodes: map<Name, Node>, es: set<Link>): set<Link> {
    set e | e in es && BetweenSwitches(nodes, e)
  }

  predicate BetweenSwitches(nodes: map<Name, Node>, e: Link) {
    e.a in nodes && e.b in nodes && nodes[e.a].Switch? && nodes[e.b].Switch?
  }

  /** Every switch whose component contains a cycle has rapid spanning tree enabled. */
  ghost predicate LoopsProtected(nodes: map<Name, Node>, es: set<Link>) {
    forall v :: v in nodes && nodes[v].Switch? && InLoop(SwitchSet(nodes, es), v) ==> nodes[v].rstp
  }

  /** `level` grows along every parent pointer and only roots have the top level. */
  ghost predicate Forest(parent: map<Name, Name>, level: map<Name, nat>, top: nat) {
    && level.Keys == parent.Keys
    && (forall x :: x in parent ==> parent[x] in parent)
    && (forall x :: x in parent ==> level[x] <= top && (parent[x] == x <==> level[x] == top))
    && (forall x :: x in parent && parent[x] != x ==> level[x] < level[parent[x]])
  }

  ghost function RootOf(parent: map<Name, Name>, level: map<Name, nat>, top: nat, x: Name): Name
    requires Forest(parent, level, top) && x in parent
    decreases top - level[x]
  {
    if parent[x] == x then x else RootOf(parent, level, top, parent[x])
  }

  lemma {:induction false} RootIsRoot(parent: map<Name, Name>, level: map<Name, nat>, top: nat, x: Name)
    requires Forest(parent, level, top) && x in parent
    ensures var r := RootOf(parent, level, top, x); r in parent && parent[r] == r
    decreases top - level[x]
  {
    if parent[x] != x {
      RootIsRoot(parent, level, top, parent[x]);
    }
  }

  /** The levels after root `ra` is hung below another root. */
  ghost function Raised(parent: map<Name, Name>, level: map<Name, nat>, top: nat, ra: Name): map<Name, nat>
    requires Forest(parent, level, top)
  {
    map x | x in parent :: if parent[x] == x && x != ra then top + 1 else level[x]
  }

  lemma RaisedForest(parent: map<Name, Name>, level: map<Name, nat>, top: nat, ra: Name, rb: Name)
    requires Forest(parent, level, top)
    requires ra in parent && rb in parent && ra != rb && parent[ra] == ra && parent[rb] == rb
    ensures Forest(parent[ra := rb], Raised(parent, level, top, ra), top + 1)
  {
  }

  lemma Upward(parent: map<Name, Name>, level: map<Name, nat>, top: nat, x: Name)
    requires Forest(parent, level, top) && x in parent
    ensures x in level && level[x] <= top && parent[x] in parent && parent[x] in level
    ensures parent[x] != x ==> level[x] < level[parent[x]] <= top
  {
  }

  /** Hanging one root below another merges exactly the two trees. */
  lemma {:induction false} Merged(parent: map<Name, Name>, level: map<Name, nat>, top: nat, ra: Name, rb: Name,
                                  next: map<Name, Name>, raised: map<Name, nat>, x: Name)
    requires Forest(parent, level, top) && x in parent
    requires ra in parent && rb in parent && ra != rb && parent[ra] == ra && parent[rb] == rb
    requires next == parent[ra := rb] && Forest(next, raised, top + 1)
    ensures
      var r := RootOf(parent, level, top, x);
      RootOf(next, raised, top + 1, x) == if r == ra then rb else r
    decreases top - level[x]
  {
    hide Forest;
    Upward(parent, level, top, x);
    if parent[x] != x {
      Merged(parent, level, top, ra, rb, next, raised, parent[x]);
    } else if x == ra {
      assert next[ra] == rb && next[rb] == rb;
    }
  }

  method Root(parent: map<Name, Name>, x: Name, ghost level: map<Name, nat>, ghost top: nat) returns (r: Name)
    requires Forest(parent, level, top) && x in parent
    ensures r == RootOf(parent, level, top, x)
  {
    r := x;
    while parent[r] != r
      invariant r in parent && RootOf(parent, level, top, r) == RootOf(parent, level, top, x)
      decreases top - level[r]
    {
      r := parent[r];
    }
  }

  ghost function Roots(parent: map<Name, Name>, level: map<Name, nat>, top: nat): map<Name, Name>
    requires Forest(parent, level, top)
  {
    map x | x in parent :: RootOf(parent, level, top, x)
  }

  /** Two nodes have the same root exactly when they are connected. */
  ghost predicate Partition(roots: map<Name, Name>, es: seq<Link>) {
    forall x, y :: x in roots && y in roots ==> (roots[x] == roots[y] <==> Conn(es, x, y))
  }

  lemma MergedPartition(roots: map<Name, Name>, es: seq<Link>, e: Link, next: map<Name, Name>)
    requires Partition(roots, es) && e.a in roots && e.b in roots
    requires next.Keys == roots.Keys
    requires forall x :: x in roots ==>
      next[x] == if roots[x] == roots[e.a] then roots[e.b] else roots[x]
    ensures Partition(next, es + [e])
  {
    hide Conn;
    forall x, y | x in next && y in next ensures next[x] == next[y] <==> Conn(es + [e], x, y) {
      ConnAppend(es, e, x, y);
    }
  }

  lemma UnionStep(parent: map<Name, Name>, level: map<Name, nat>, top: nat, ra: Name, rb: Name, es: seq<Link>, e: Link)
    requires Forest(parent, level, top) && Partition(Roots(parent, level, top), es)
    requires e.a in parent && e.b in parent
    requires ra == RootOf(parent, level, top, e.a) && rb == RootOf(parent, level, top, e.b) && ra != rb
    ensures
      var raised := Raised(parent, level, top, ra);
      ra in parent && rb in parent
      && Forest(parent[ra := rb], raised, top + 1)
      && Partition(Roots(parent[ra := rb], raised, top + 1), es + [e])
  {
    hide Conn, RootOf, Partition, Forest, Raised;
    RootIsRoot(parent, level, top, e.a);
    RootIsRoot(parent, level, top, e.b);
    RaisedForest(parent, level, top, ra, rb);
    var next, raised := parent[ra := rb], Raised(parent, level, top, ra);
    var roots := Roots(parent, level, top);
    var after := Roots(next, raised, top + 1);
    forall x | x in roots ensures after[x] == if roots[x] == roots[e.a] then roots[e.b] else roots[x] {
      Merged(parent, level, top, ra, rb, next, raised, x);
    }
    MergedPartition(roots, es, e, after);
  }

  /** The links seen so far: distinct, and exactly the edges between switches. */
  ghost predicate Seen(nodes: map<Name, Node>, es: seq<Link>, i: nat, done: seq<Link>) {
    i <= |es| && Distinct(done) && Links(done) == SwitchSet(nodes, Links(es[..i]))
  }

  lemma SeenStep(nodes: map<Name, Node>, es: seq<Link>, i: nat, done: seq<Link>)
    requires Distinct(es) && i < |es| && Seen(nodes, es, i, done)
    ensures Seen(nodes, es, i + 1, if BetweenSwitches(nodes, es[i]) then done + [es[i]] else done)
  {
    var e := es[i];
    assert es[..i + 1] == es[..i] + [e];
    assert e !in es[..i];
    assert Links(es[..i + 1]) == Links(es[..i]) + {e};
    if BetweenSwitches(nodes, e) {
      assert e !in Links(done);
      assert Links(done + [e]) == Links(done) + {e};
      assert SwitchSet(nodes, Links(es[..i + 1])) == SwitchSet(nodes, Links(es[..i])) + {e};
    } else {
      assert SwitchSet(nodes, Links(es[..i + 1])) == SwitchSet(nodes, Links(es[..i]));
    }
  }

  /** `cyclic` holds the first end of every closing link. */
  ghost predicate Marks(cyclic: set<Name>, es: seq<Link>) {
    && (forall c :: c in cyclic ==> exists j: nat :: Closes(es, j) && es[j].a == c)
    && (forall j: nat :: Closes(es, j) ==> es[j].a in cyclic)
  }

  lemma MarksStep(cyclic: set<Name>, es: seq<Link>, e: Link)
    requires Marks(cyclic, es)
    ensures Marks(if Conn(es, e.a, e.b) then cyclic + {e.a} else cyclic, es + [e])
  {
    hide Conn;
    var n := es + [e];
    forall j: nat | j < |es| ensures Closes(n, j) <==> Closes(es, j) {
      assert n[..j] == es[..j];
    }
    assert n[..|es|] == es;
    assert Closes(n, |es|) <==> Conn(es, e.a, e.b);
  }

  /** A node is flagged exactly when it has the root of a marked node. */
  lemma MarkedIsFlagged(roots: map<Name, Name>, cyclic: set<Name>, es: seq<Link>, v: Name)
    requires Partition(roots, es) && Marks(cyclic, es) && cyclic <= roots.Keys && v in roots
    ensures Flagged(es, v) <==> exists c :: c in cyclic && roots[v] == roots[c]
  {
    hide Conn;
    if Flagged(es, v) {
      var j: nat :| Closes(es, j) && Conn(es, v, es[j].a);
      assert es[j].a in cyclic && roots[v] == roots[es[j].a];
    }
    if c :| c in cyclic && roots[v] == roots[c] {
      var j: nat :| Closes(es, j) && es[j].a == c;
      assert Conn(es, v, es[j].a);
    }
  }

  /** The validator's loop rule, as computed: union-find over the edges in the order
      of the list, then every switch against every marked node. */
  method CheckLoops(nodes: map<Name, Node>, es: seq<Link>, rstp: bool) returns (ok: bool)
    requires Declared(nodes, es) && Distinct(es)
    ensures ok <==> (rstp ==> LoopsProtected(nodes, Links(es)))
  {
    hide Forest, RootOf, Raised, Conn, Partition, Marks, Seen, InLoop;
    var parent := map x | x in nodes :: x;
    ghost var level: map<Name, nat>, top: nat := map x | x in nodes :: 0, 0;
    var cyclic: set<Name> := {};
    ghost var done: seq<Link> := [];
    Initially(nodes, es, parent, level);
    for i := 0 to |es|
      invariant parent.Keys == nodes.Keys && Forest(parent, level, top)
      invariant Partition(Roots(parent, level, top), done)
      invariant Seen(nodes, es, i, done) && Marks(cyclic, done) && cyclic <= nodes.Keys
    {
      var e := es[i];
      SeenStep(nodes, es, i, done);
      if nodes[e.a].Switch? && nodes[e.b].Switch? {
        var ra := Root(parent, e.a, level, top);
        var rb := Root(parent, e.b, level, top);
        MarksStep(cyclic, done, e);
        ghost var roots := Roots(parent, level, top);
        assert ra == roots[e.a] && rb == roots[e.b];
        SameRoot(roots, done, e.a, e.b);
        if ra == rb {
          cyclic := cyclic + {e.a};
          MergedPartition(roots, done, e, roots);
        } else {
          UnionStep(parent, level, top, ra, rb, done, e);
          level, top := Raised(parent, level, top, ra), top + 1;
          parent := parent[ra := rb];
        }
        done := done + [e];
      }
    }
    ghost var links := SwitchSet(nodes, Links(es));
    ghost var roots := Roots(parent, level, top);
    assert Distinct(done) && Links(done) == links by { AllSeen(nodes, es, done); }
    ok := true;
    if rstp {
      var keys := nodes.Keys;
      while keys != {}
        invariant keys <= nodes.Keys
        invariant ok <==> forall v :: v in nodes.Keys - keys && nodes[v].Switch? && InLoop(links, v) ==> nodes[v].rstp
        decreases keys
      {
        var key :| key in keys;
        FlaggedIsLoop(done, key);
        MarkedIsFlagged(roots, cyclic, done, key);
        var bad := false;
        if nodes[key].Switch? {
          bad := SharesRoot(parent, key, cyclic, level, top);
          bad := bad && !nodes[key].rstp;
        }
        ok := ok && !bad;
        keys := keys - {key};
      }
    }
  }

  /** Whether `key` lies in the tree of some marked node. */
  method SharesRoot(parent: map<Name, Name>, key: Name, cyclic: set<Name>, ghost level: map<Name, nat>, ghost top: nat)
    returns (shared: bool)
    requires Forest(parent, level, top) && key in parent && cyclic <= parent.Keys
    ensures shared <==> exists c :: c in cyclic && Roots(parent, level, top)[key] == Roots(parent, level, top)[c]
  {
    hide Forest, RootOf;
    ghost var roots := Roots(parent, level, top);
    shared := false;
    var rest := cyclic;
    while rest != {}
      invariant rest <= cyclic
      invariant shared <==> exists c :: c in cyclic - rest && roots[key] == roots[c]
      decreases rest
    {
      var cyc :| cyc in rest;
      var rk := Root(parent, key, level, top);
      var rc := Root(parent, cyc, level, top);
      assert rk == roots[key] && rc == roots[cyc];
      shared := shared || rk == rc;
      rest := rest - {cyc};
    }
  }

  lemma Initially(nodes: map<Name, Node>, es: seq<Link>, parent: map<Name, Name>, level: map<Name, nat>)
    requires parent == map x | x in nodes :: x
    requires level == map x | x in nodes :: 0
    ensures Forest(parent, level, 0) && Partition(Roots(parent, level, 0), [])
    ensures Seen(nodes, es, 0, []) && Marks({}, [])
  {
  }

  lemma SameRoot(roots: map<Name, Name>, es: seq<Link>, x: Name, y: Name)
    requires Partition(roots, es) && x in roots && y in roots
    ensures roots[x] == roots[y] <==> Conn(es, x, y)
  {
  }

  lemma AllSeen(nodes: map<Name, Node>, es: seq<Link>, done: seq<Link>)
    requires Seen(nodes, es, |es|, done)
    ensures Distinct(done) && Links(done) == SwitchSet(nodes, Links(es))
  {
    assert es[..|es|] == es;
  }
}
