/**
  Bytes, big-endian integers, resizing and clipping: the vocabulary of every codec.
  A std::string is a sequence of bytes here, exactly as the C++ code copies it.
 */
module Bytes {

  type byte = x: int | 0 <= x < 256
  type uint16 = x: int | 0 <= x < 0x1_0000
  type uint64 = x: int | 0 <= x < 0x1_0000_0000_0000_0000
  type bytes = seq<byte>

  datatype Option<+T> = None | Some(value: T)

  /** The outcome of code that indexes a buffer: a value, or a read past the buffer's end. */
  datatype Read<+T> = Got(value: T) | OutOfBounds

  function Min(a: nat, b: nat): (r: nat) {
    if a < b then a else b
  }

  /** The first `n` bytes, or everything when there are fewer. */
  function Clip<T>(s: seq<T>, n: nat): (r: seq<T>) {
    s[..Min(n, |s|)]
  }

  /** The last `n` elements, or everything when there are fewer. */
  function LastN<T>(s: seq<T>, n: nat): (r: seq<T>) {
    if |s| <= n then s else s[|s| - n..]
  }

  function Zeros(n: nat): (r: bytes)
    ensures |r| == n && forall i :: 0 <= i < n ==> r[i] == 0
  {
    seq(n, i => 0)
  }

  /** vector::resize(n, 0): truncate, or extend with zeros. */
  function Resize(s: bytes, n: nat): (r: bytes)
    ensures |r| == n
    ensures |s| == n ==> r == s
  {
    if |s| >= n then s[..n] else s + Zeros(n - |s|)
  }

  lemma Associate<T>(a: seq<T>, b: seq<T>, c: seq<T>)
    ensures a + b + c == a + (b + c)
  {
  }

  lemma HeadAndTail<T>(x: T, rest: seq<T>)
    ensures ([x] + rest)[0] == x && ([x] + rest)[1..] == rest
  {
  }

  /** `x` stands in `s` from position `i` on. */
  predicate Stands(s: bytes, i: nat, x: bytes) {
    i + |x| <= |s| && s[i..i + |x|] == x
  }

  lemma StandsWithin(s: bytes, i: nat, t: bytes, j: nat, x: bytes)
    requires Stands(s, i, t) && Stands(t, j, x)
    ensures Stands(s, i + j, x)
  {
    forall k | 0 <= k < |x| ensures s[i + j + k] == x[k] {
      assert s[i + j + k] == s[i..i + |t|][j + k] == t[j + k] == t[j..j + |x|][k];
    }
    assert s[i + j..i + j + |x|] == x;
  }

  lemma SliceOfTail(s: bytes, i: nat, j: nat)
    requires i <= j <= |s|
    ensures s[i..][..j - i] == s[i..j]
  {
  }

  lemma FiveStand(a: bytes, b: bytes, c: bytes, d: bytes, e: bytes)
    ensures var s := a + b + c + d + e;
            && Stands(s, 0, a) && Stands(s, |a|, b) && Stands(s, |a| + |b|, c)
            && Stands(s, |a| + |b| + |c|, d) && Stands(s, |a| + |b| + |c| + |d|, e)
            && |s| == |a| + |b| + |c| + |d| + |e|
  {
  }

  ghost predicate Distinct<T>(s: seq<T>) {
    forall i, j :: 0 <= i < j < |s| ==> s[i] != s[j]
  }

  ghost function Elements<T>(s: seq<T>): set<T> {
    set x | x in s
  }

  /** A duplicate-free list drawn from a finite set is no longer than the set is large. */
  lemma {:induction false} DistinctBound<T>(s: seq<T>, u: set<T>)
    requires Distinct(s)
    requires forall x :: x in s ==> x in u
    ensures |s| <= |u|
  {
    if s != [] {
      var rest := s[1..];
      forall x | x in rest ensures x in u - {s[0]} {
        var i :| 0 <= i < |rest| && rest[i] == x;
        assert s[i + 1] == x;
      }
      DistinctBound(rest, u - {s[0]});
    }
  }

  // ---------------------------------------------------------------- big-endian integers

  ghost function Pow256(n: nat): (r: nat)
    ensures r > 0
  {
    if n == 0 then 1 else 256 * Pow256(n - 1)
  }

  /** The low `n` bytes of `v`, most significant first. */
  function BigEndian(v: nat, n: nat): (r: bytes)
    ensures |r| == n
  {
    if n == 0 then [] else BigEndian(v / 256, n - 1) + [v % 256]
  }

  function FromBigEndian(s: bytes): (r: nat)
  {
    if s == [] then 0 else 256 * FromBigEndian(s[..|s| - 1]) + s[|s| - 1]
  }

  lemma {:induction false} FromBigEndianBound(s: bytes)
    ensures FromBigEndian(s) < Pow256(|s|)
  {
    if s != [] {
      FromBigEndianBound(s[..|s| - 1]);
    }
  }

  /** Writing then reading an integer that fits in `n` bytes gives it back. */
  lemma {:induction false} BigEndianRoundTrip(v: nat, n: nat)
    requires v < Pow256(n)
    ensures FromBigEndian(BigEndian(v, n)) == v
  {
    if n > 0 {
      BigEndianRoundTrip(v / 256, n - 1);
      assert BigEndian(v, n)[..n - 1] == BigEndian(v / 256, n - 1);
    }
  }

  /** Reading then writing restores the bytes, so the two directions are inverse. */
  lemma {:induction false} BigEndianOfRead(s: bytes)
    ensures BigEndian(FromBigEndian(s), |s|) == s
  {
    if s != [] {
      var front, last := FromBigEndian(s[..|s| - 1]), s[|s| - 1];
      BigEndianOfRead(s[..|s| - 1]);
      assert (256 * front + last) / 256 == front && (256 * front + last) % 256 == last;
      assert s == s[..|s| - 1] + [last];
    }
  }

  lemma PowerFacts()
    ensures Pow256(2) == 0x1_0000
    ensures Pow256(8) == 0x1_0000_0000_0000_0000
  {
    assert Pow256(4) == 0x1_0000_0000;
  }

  lemma Uint16RoundTrip(v: uint16)
    ensures FromBigEndian(BigEndian(v, 2)) == v
  {
    PowerFacts();
    BigEndianRoundTrip(v, 2);
  }

  lemma Uint64RoundTrip(v: uint64)
    ensures FromBigEndian(BigEndian(v, 8)) == v
  {
    PowerFacts();
    BigEndianRoundTrip(v, 8);
  }

  function ReadU16(s: bytes): (r: uint16)
    requires |s| == 2
    ensures BigEndian(r, 2) == s
  {
    FromBigEndianBound(s);
    PowerFacts();
    BigEndianOfRead(s);
    FromBigEndian(s)
  }

  function ReadU64(s: bytes): (r: uint64)
    requires |s| == 8
    ensures BigEndian(r, 8) == s
  {
    FromBigEndianBound(s);
    PowerFacts();
    BigEndianOfRead(s);
    FromBigEndian(s)
  }

  lemma MulAtLeast(d: int, k: int)
    requires d > 0
    ensures k >= 1 ==> d * k >= d
    ensures k <= -1 ==> d * k <= -d
  {
  }

  lemma DivUnique(x: int, d: int, q: int, r: int)
    requires 0 <= r < d && x == d * q + r
    ensures x / d == q
  {
    var k := x / d - q;
    assert d * k == r - x % d;
    MulAtLeast(d, k);
  }

  lemma DivCompose(v: nat, p: nat)
    requires p > 0
    ensures v / (256 * p) == (v / 256) / p
  {
    var a := v / 256;
    var q := a / p;
    var s := a % p;
    assert v == (256 * p) * q + (256 * s + v % 256);
    DivUnique(v, 256 * p, q, 256 * s + v % 256);
  }

  /** Byte `j` of the encoding is the byte the shift-and-mask of the source selects. */
  lemma {:induction false} BigEndianByte(v: nat, n: nat, j: nat)
    requires j < n
    ensures BigEndian(v, n)[j] == v / Pow256(n - 1 - j) % 256
  {
    if j < n - 1 {
      BigEndianByte(v / 256, n - 1, j);
      DivCompose(v, Pow256(n - 2 - j));
    }
  }

  function Shift(v: nat, k: nat): (r: nat)
    ensures r == v / Pow256(k)
  {
    if k == 0 then v else DivCompose(v, Pow256(k - 1)); Shift(v / 256, k - 1)
  }

  // ---------------------------------------------------------------- write and read helpers

  method WriteUint16(data: bytes, value: uint16) returns (out: bytes)
    ensures out == data + BigEndian(value, 2)
  {
    out := data + [value / 256 % 256] + [value % 256];
    assert BigEndian(value / 256, 1) == [value / 256 % 256];
  }

  method WriteUint64(data: bytes, value: uint64) returns (out: bytes)
    ensures out == data + BigEndian(value, 8)
  {
    out := data;
    var i := 7;
    while i >= 0
      invariant -1 <= i <= 7
      invariant out == data + BigEndian(value, 8)[..7 - i]
    {
      BigEndianByte(value, 8, 7 - i);
      out := out + [Shift(value, i) % 256];
      i := i - 1;
    }
  }

  method ReadUint64(data: bytes, offset: nat) returns (value: uint64, next: nat)
    requires offset + 8 <= |data|
    ensures value == ReadU64(data[offset..offset + 8]) && next == offset + 8
  {
    var v: nat := 0;
    next := offset;
    for i := 0 to 8
      invariant next == offset + i
      invariant v == FromBigEndian(data[offset..offset + i])
    {
      assert data[offset..offset + i + 1][..i] == data[offset..offset + i];
      var b: int := data[next];
      v := v * 256 + b;
      next := next + 1;
    }
    FromBigEndianBound(data[offset..offset + 8]);
    PowerFacts();
    value := v;
  }

  lemma OneByte(a: byte)
    ensures FromBigEndian([a]) == a
  {
    assert [a][..0] == [];
  }

  lemma TwoBytes(a: byte, b: byte)
    ensures FromBigEndian([a, b]) == 256 * a + b
  {
    assert [a, b][..1] == [a];
    OneByte(a);
  }

  method ReadUint16(data: bytes, offset: nat) returns (value: uint16, next: nat)
    requires offset + 2 <= |data|
    ensures value == ReadU16(data[offset..offset + 2]) && next == offset + 2
  {
    assert data[offset..offset + 2] == [data[offset], data[offset + 1]];
    TwoBytes(data[offset], data[offset + 1]);
    var hi: int, lo: int := data[offset], data[offset + 1];
    value := hi * 256 + lo;
    next := offset + 2;
  }
}
