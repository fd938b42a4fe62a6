/** Byte strings and the little-endian integer encodings shared by the capture
    writer, the packet decoder and the terminal recording. */
module Bytes {

  type Byte = b: int | 0 <= b < 256

  /** 256 to the power `n`: the number of values an `n`-byte field can hold. */
  function Radix(n: nat): (r: nat)
    ensures r > 0
  {
    if n == 0 then 1 else 256 * Radix(n - 1)
  }

  /** The low `width` bytes of `v`, least significant first; higher bytes are cut off. */
  function Put(v: nat, width: nat): (b: seq<Byte>)
    ensures |b| == width
    decreases width
  {
    if width == 0 then [] else [v % 256] + Put(v / 256, width - 1)
  }

  /** The value of a little-endian field. */
  function Get(b: seq<Byte>): (v: nat)
    ensures v < Radix(|b|)
  {
    if b == [] then 0 else b[0] + 256 * Get(b[1..])
  }

  /** Reading a field returns the written value, reduced to the field's width. */
  lemma {:induction false} GetPut(v: nat, width: nat)
    ensures Get(Put(v, width)) == v % Radix(width)
    decreases width
  {
    if width > 0 {
      GetPut(v / 256, width - 1);
      assert Put(v, width)[1..] == Put(v / 256, width - 1);
      ModSplit(v, Radix(width - 1));
    }
  }

  lemma ModSplit(v: nat, r: nat)
    requires r > 0
    ensures v % 256 + 256 * ((v / 256) % r) == v % (256 * r)
  {
    var q, lo := v / 256, v % 256;
    var h, m := q / r, q % r;
    assert q == h * r + m;
    assert v == 256 * (h * r + m) + lo;
    assert v == h * (256 * r) + (256 * m + lo);
    assert 256 * m + lo < 256 * r by { assert m <= r - 1; }
    DivUnique(v, 256 * r, h, 256 * m + lo);
  }

  lemma ScaleAtLeast(k: int, d: nat)
    requires k >= 1
    ensures k * d >= d
  {
  }

  lemma DivUnique(v: nat, d: nat, q: nat, rem: nat)
    requires d > 0 && v == q * d + rem && rem < d
    ensures v / d == q && v % d == rem
  {
    var q', rem' := v / d, v % d;
    assert (q - q') * d == rem' - rem;
    if q' < q {
      ScaleAtLeast(q - q', d);
    } else if q < q' {
      assert (q' - q) * d == rem - rem';
      ScaleAtLeast(q' - q, d);
    }
  }

  /** A field that fits survives the round trip unchanged. */
  lemma GetPutFits(v: nat, width: nat)
    requires v < Radix(width)
    ensures Get(Put(v, width)) == v
  {
    GetPut(v, width);
    DivUnique(v, Radix(width), 0, v);
  }

  /** Every field is the encoding of its own value, so the encoding is a bijection. */
  lemma {:induction false} PutGet(b: seq<Byte>)
    ensures Put(Get(b), |b|) == b
  {
    if b != [] {
      PutGet(b[1..]);
      assert Get(b) % 256 == b[0] && Get(b) / 256 == Get(b[1..]);
      assert b == [b[0]] + b[1..];
    }
  }

  lemma RadixValues()
    ensures Radix(1) == 0x100 && Radix(2) == 0x1_0000
    ensures Radix(4) == 0x1_0000_0000
    ensures Radix(8) == 0x1_0000_0000_0000_0000
  {
    assert Radix(3) == 0x100_0000;
    assert Radix(5) == 0x100_0000_0000;
    assert Radix(6) == 0x1_0000_0000_0000;
    assert Radix(7) == 0x100_0000_0000_0000;
  }

  /** The writers' append loop: byte `i` pushed is `v >> (8 * i)`. */
  method AppendField(b: seq<Byte>, v: nat, width: nat) returns (out: seq<Byte>)
    ensures out == b + Put(v, width)
  {
    out := b;
    var rest := v;
    ghost var goal := b + Put(v, width);
    for i := 0 to width
      invariant out + Put(rest, width - i) == goal
    {
      ghost var before := out;
      out := out + [rest % 256];
      assert out + Put(rest / 256, width - i - 1) == before + Put(rest, width - i);
      rest := rest / 256;
    }
  }

  lemma {:induction false} GetAppend(b: seq<Byte>, x: Byte)
    ensures Get(b + [x]) == Get(b) + Radix(|b|) * x
  {
    if b == [] {
      assert Get([x][1..]) == 0;
    } else {
      GetAppend(b[1..], x);
      assert (b + [x])[1..] == b[1..] + [x];
      ScaleShift(Radix(|b| - 1), x);
    }
  }

  lemma ScaleShift(r: int, x: int)
    ensures 256 * (r * x) == (256 * r) * x
  {
  }

  /** The readers' accumulation loop: `v |= p[i] << (8 * i)`. */
  method ReadField(b: seq<Byte>) returns (v: nat)
    ensures v == Get(b)
  {
    v := 0;
    var scale: nat := 1;
    for i := 0 to |b|
      invariant scale == Radix(i) && v == Get(b[..i])
    {
      GetAppend(b[..i], b[i]);
      assert b[..i + 1] == b[..i] + [b[i]];
      v := v + scale * b[i];
      scale := 256 * scale;
    }
    assert b[..|b|] == b;
  }

  lemma Associate<T>(a: seq<T>, b: seq<T>, c: seq<T>)
    ensures a + (b + c) == a + b + c
  {
  }

  /** A slice of a slice. */
  lemma SubSlice<T>(s: seq<T>, a: nat, b: nat, c: nat, d: nat)
    requires a <= b <= |s| && c <= d <= b - a
    ensures s[a..b][c..d] == s[a + c..a + d]
  {
    var l, r := s[a..b][c..d], s[a + c..a + d];
    forall i | 0 <= i < |l| ensures l[i] == r[i] {
    }
  }

  /** The places of consecutive parts of a concatenation. */
  lemma Parts<T>(a: seq<T>, b: seq<T>, c: seq<T>, d: seq<T>)
    ensures var s := a + (b + (c + d));
            && s[0..|a|] == a
            && s[|a|..|a| + |b|] == b
            && s[|a| + |b|..|a| + |b| + |c|] == c
            && s[|a| + |b| + |c|..] == d
  {
    var s := a + (b + (c + d));
    var n := |a| + |b|;
    forall i | 0 <= i < |b| ensures s[|a|..n][i] == b[i] {
    }
    forall i | 0 <= i < |c| ensures s[n..n + |c|][i] == c[i] {
    }
    forall i | 0 <= i < |d| ensures s[n + |c|..][i] == d[i] {
    }
  }

  /** The places of the parts of a concatenation that itself stands inside `s`. */
  lemma PartsInside<T>(s: seq<T>, at: nat, a: seq<T>, b: seq<T>, c: seq<T>, d: seq<T>)
    requires at + |a| + |b| + |c| + |d| <= |s|
    requires s[at..at + |a| + |b| + |c| + |d|] == a + (b + (c + d))
    ensures s[at..at + |a|] == a
    ensures s[at + |a|..at + |a| + |b|] == b
    ensures s[at + |a| + |b|..at + |a| + |b| + |c|] == c
    ensures s[at + |a| + |b| + |c|..at + |a| + |b| + |c| + |d|] == d
  {
    var n := |a| + |b| + |c| + |d|;
    Parts(a, b, c, d);
    SubSlice(s, at, at + n, 0, |a|);
    SubSlice(s, at, at + n, |a|, |a| + |b|);
    SubSlice(s, at, at + n, |a| + |b|, |a| + |b| + |c|);
    SubSlice(s, at, at + n, |a| + |b| + |c|, n);
  }
}
