/** Strings in byte order, and lists sorted by a string key. */
module Ordering {

  /** Lexicographic order, shorter prefixes first. */
  predicate Less(a: string, b: string)
    decreases |a|
  {
    b != [] && (a == [] || a[0] < b[0] || (a[0] == b[0] && Less(a[1..], b[1..])))
  }

  lemma {:induction false} LessIrreflexive(a: string)
    ensures !Less(a, a)
    decreases |a|
  {
    if a != [] {
      LessIrreflexive(a[1..]);
    }
  }

  lemma {:induction false} LessTransitive(a: string, b: string, c: string)
    requires Less(a, b) && Less(b, c)
    ensures Less(a, c)
    decreases |a|
  {
    if a != [] && a[0] == b[0] && b[0] == c[0] {
      LessTransitive(a[1..], b[1..], c[1..]);
    }
  }

  lemma {:induction false} LessTotal(a: string, b: string)
    ensures a == b || Less(a, b) || Less(b, a)
    decreases |a|
  {
    if a != [] && b != [] && a[0] == b[0] {
      LessTotal(a[1..], b[1..]);
      assert a == [a[0]] + a[1..] && b == [b[0]] + b[1..];
    }
  }

  /** The least of a non-empty set of strings, as the first element of an ordered set. */
  method Least(s: set<string>) returns (x: string)
    requires s != {}
    ensures x in s && forall y :: y in s && y != x ==> Less(x, y)
  {
    x :| x in s;
    var rest := s - {x};
    while rest != {}
      invariant rest <= s - {x} && x in s
      invariant forall y :: y in s - rest && y != x ==> Less(x, y)
      decreases rest
    {
      var y :| y in rest;
      LessTotal(x, y);
      if Less(y, x) {
        forall z | z in s - rest && z != x ensures Less(y, z) {
          LessTransitive(y, x, z);
        }
        x := y;
      }
      rest := rest - {y};
    }
  }

  /** Keys strictly increase along the list. */
  ghost predicate Ascending<T>(s: seq<T>, key: T -> string) {
    forall i, j :: 0 <= i < j < |s| ==> Less(key(s[i]), key(s[j]))
  }

  /** No key occurs twice. */
  ghost predicate Unique<T>(s: seq<T>, key: T -> string) {
    forall i, j :: 0 <= i < j < |s| ==> key(s[i]) != key(s[j])
  }

  /** Keys do not decrease along the list, which is what sorting achieves. */
  ghost predicate Sorted<T>(s: seq<T>, key: T -> string) {
    forall i, j :: 0 <= i < j < |s| ==> !Less(key(s[j]), key(s[i]))
  }

  /** Sorting by key. */
  method Sort<T>(s: seq<T>, key: T -> string) returns (r: seq<T>)
    ensures multiset(r) == multiset(s) && Sorted(r, key)
  {
    r := [];
    for i := 0 to |s|
      invariant multiset(r) == multiset(s[..i]) && Sorted(r, key)
    {
      var j := 0;
      while j < |r| && !Less(key(s[i]), key(r[j]))
        invariant 0 <= j <= |r|
        invariant forall k :: 0 <= k < j ==> !Less(key(s[i]), key(r[k]))
      {
        j := j + 1;
      }
      InsertSorted(r, j, s[i], key);
      assert s[..i + 1] == s[..i] + [s[i]];
      assert r == r[..j] + r[j..];
      r := r[..j] + [s[i]] + r[j..];
    }
    assert s[..|s|] == s;
  }

  lemma InsertSorted<T>(r: seq<T>, j: nat, x: T, key: T -> string)
    requires Sorted(r, key) && j <= |r|
    requires forall k :: 0 <= k < j ==> !Less(key(x), key(r[k]))
    requires j < |r| ==> Less(key(x), key(r[j]))
    ensures Sorted(r[..j] + [x] + r[j..], key)
  {
    var t := r[..j] + [x] + r[j..];
    forall a, b | 0 <= a < b < |t| ensures !Less(key(t[b]), key(t[a])) {
      if a == j {
        assert t[b] == r[b - 1];
        LessIrreflexive(key(r[j]));
        if Less(key(t[b]), key(x)) {
          LessTransitive(key(t[b]), key(x), key(r[j]));
        }
      } else if b == j {
        assert t[a] == r[a];
      } else {
        assert t[a] == (if a < j then r[a] else r[a - 1]);
        assert t[b] == (if b < j then r[b] else r[b - 1]);
      }
    }
  }

  lemma SortedAscends<T>(s: seq<T>, key: T -> string)
    requires Sorted(s, key) && Unique(s, key)
    ensures Ascending(s, key)
  {
    forall i, j | 0 <= i < j < |s| ensures Less(key(s[i]), key(s[j])) {
      LessTotal(key(s[i]), key(s[j]));
    }
  }

  /** Any two elements at different places are `apart`. */
  ghost predicate Pairwise<T>(s: seq<T>, apart: (T, T) -> bool) {
    forall i, j :: 0 <= i < j < |s| ==> apart(s[i], s[j])
  }

  /** Pairwise separation by a symmetric relation that no element has to itself does not
      depend on the order of the list. */
  lemma PairwiseReordered<T(!new)>(s: seq<T>, t: seq<T>, apart: (T, T) -> bool)
    requires forall x, y :: apart(x, y) ==> apart(y, x)
    requires forall x :: !apart(x, x)
    requires multiset(s) == multiset(t) && Pairwise(s, apart)
    ensures Pairwise(t, apart)
  {
    forall i, j | 0 <= i < j < |t| ensures apart(t[i], t[j]) {
      assert t[i] in multiset(t) && t[j] in multiset(t);
      assert t[i] in s && t[j] in s;
      var a :| 0 <= a < |s| && s[a] == t[i];
      var b :| 0 <= b < |s| && s[b] == t[j];
      if a == b {
        TwoPlaces(t, i, j);
        OnePlace(s, a, apart);
      }
    }
  }

  lemma UniqueReordered<T(!new)>(s: seq<T>, t: seq<T>, key: T -> string)
    requires multiset(s) == multiset(t) && Unique(s, key)
    ensures Unique(t, key)
  {
    PairwiseReordered(s, t, (x, y) => key(x) != key(y));
  }

  lemma TwoPlaces<T>(t: seq<T>, i: nat, j: nat)
    requires i < j < |t| && t[i] == t[j]
    ensures multiset(t)[t[i]] >= 2
  {
    assert t == t[..j] + [t[j]] + t[j + 1..];
    assert t[i] in t[..j];
  }

  lemma OnePlace<T(!new)>(s: seq<T>, a: nat, apart: (T, T) -> bool)
    requires a < |s| && Pairwise(s, apart) && forall x :: !apart(x, x)
    ensures multiset(s)[s[a]] == 1
  {
    assert s == s[..a] + [s[a]] + s[a + 1..];
    assert s[a] !in s[..a];
    assert s[a] !in s[a + 1..];
  }

  /** A list has at most one strictly ascending arrangement. */
  lemma {:induction false} OneArrangement<T>(s: seq<T>, t: seq<T>, key: T -> string)
    requires multiset(s) == multiset(t) && Ascending(s, key) && Ascending(t, key)
    ensures s == t
    decreases |s|
  {
    assert |s| == |multiset(s)| && |t| == |multiset(t)|;
    if s != [] {
      FirstsAgree(s, t, key);
      var x := s[0];
      assert s == [x] + s[1..] && t == [x] + t[1..];
      assert multiset(s[1..]) == multiset(s) - multiset{x};
      assert multiset(t[1..]) == multiset(t) - multiset{x};
      OneArrangement(s[1..], t[1..], key);
    }
  }

  lemma FirstsAgree<T>(s: seq<T>, t: seq<T>, key: T -> string)
    requires s != [] && t != [] && multiset(s) == multiset(t) && Ascending(s, key) && Ascending(t, key)
    ensures s[0] == t[0]
  {
    hide Less;
    var x, y := s[0], t[0];
    assert x in multiset(t) && y in multiset(s);
    assert x in t && y in s;
    var i :| 0 <= i < |t| && t[i] == x;
    var k :| 0 <= k < |s| && s[k] == y;
    if i > 0 && k > 0 {
      LessTransitive(key(x), key(y), key(x));
      LessIrreflexive(key(x));
    }
  }

  /** The list rearranged by key. */
  function Insert<T>(x: T, s: seq<T>, key: T -> string): seq<T> {
    if s == [] || Less(key(x), key(s[0])) then [x] + s else [s[0]] + Insert(x, s[1..], key)
  }

  function Arrange<T>(s: seq<T>, key: T -> string): seq<T> {
    if s == [] then [] else Insert(s[|s| - 1], Arrange(s[..|s| - 1], key), key)
  }

  lemma AscendingCons<T>(x: T, s: seq<T>, key: T -> string)
    requires Ascending(s, key) && forall y :: y in multiset(s) ==> Less(key(x), key(y))
    ensures Ascending([x] + s, key)
  {
    hide Less;
    var t := [x] + s;
    forall i, j | 0 <= i < j < |t| ensures Less(key(t[i]), key(t[j])) {
      assert t[j] == s[j - 1] && s[j - 1] in multiset(s);
    }
  }

  lemma {:induction false} InsertOne<T>(x: T, s: seq<T>, key: T -> string)
    requires Ascending(s, key) && forall y :: y in s ==> key(y) != key(x)
    ensures multiset(Insert(x, s, key)) == multiset(s) + multiset{x} && Ascending(Insert(x, s, key), key)
    decreases |s|
  {
    hide Less;
    if s == [] {
    } else if Less(key(x), key(s[0])) {
      forall y | y in multiset(s) ensures Less(key(x), key(y)) {
        var j :| 0 <= j < |s| && s[j] == y;
        if j > 0 {
          LessTransitive(key(x), key(s[0]), key(s[j]));
        }
      }
      AscendingCons(x, s, key);
    } else {
      LessTotal(key(x), key(s[0]));
      var rest := s[1..];
      InsertOne(x, rest, key);
      assert s == [s[0]] + rest;
      forall y | y in multiset(Insert(x, rest, key)) ensures Less(key(s[0]), key(y)) {
        assert y == x || y in rest;
      }
      AscendingCons(s[0], Insert(x, rest, key), key);
    }
  }

  /** Rearranging a list without repeated keys sorts it and loses nothing. */
  lemma {:induction false} ArrangeSorts<T>(s: seq<T>, key: T -> string)
    requires Unique(s, key)
    ensures multiset(Arrange(s, key)) == multiset(s) && Ascending(Arrange(s, key), key)
    decreases |s|
  {
    if s != [] {
      var x, rest := s[|s| - 1], s[..|s| - 1];
      ArrangeSorts(rest, key);
      assert s == rest + [x];
      forall y | y in Arrange(rest, key) ensures key(y) != key(x) {
        assert y in multiset(rest);
      }
      InsertOne(x, Arrange(rest, key), key);
    }
  }

  /** The rearrangement of a list without repeated keys does not depend on its order. */
  lemma ArrangeReordered<T(!new)>(s: seq<T>, t: seq<T>, key: T -> string)
    requires multiset(s) == multiset(t) && Unique(s, key)
    ensures Arrange(s, key) == Arrange(t, key)
  {
    UniqueReordered(s, t, key);
    ArrangeSorts(s, key);
    ArrangeSorts(t, key);
    OneArrangement(Arrange(s, key), Arrange(t, key), key);
  }

  /** Any way of sorting a list without repeated keys gives its rearrangement. */
  lemma SortIsArrange<T>(s: seq<T>, r: seq<T>, key: T -> string)
    requires multiset(r) == multiset(s) && Sorted(r, key) && Unique(r, key) && Unique(s, key)
    ensures r == Arrange(s, key)
  {
    SortedAscends(r, key);
    ArrangeSorts(s, key);
    OneArrangement(r, Arrange(s, key), key);
  }
}
