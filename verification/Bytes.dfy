/** Bytes, fixed-width integers and C strings, as the wire formats of the program use them. */
module Bytes {
  newtype byte = x: int | 0 <= x < 256

  predicate NulFree(s: seq<byte>) {
    0 !in s
  }

  /** A string without a NUL: everything that reaches the program through a `const char *`. */
  type CStr = s: seq<byte> | NulFree(s)

  const TWO32: nat := 0x1_0000_0000
  const TWO64: nat := 0x1_0000_0000_0000_0000

  datatype Option<+T> = None | Some(value: T)

  function Pow256(k: nat): (p: nat)
    ensures p > 0
  {
    if k == 0 then 1 else 256 * Pow256(k - 1)
  }

  lemma Pow256Values()
    ensures Pow256(4) == TWO32 && Pow256(8) == TWO64
  {
    assert Pow256(2) == 65536;
    assert Pow256(4) == 65536 * 65536;
    assert Pow256(6) == 65536 * 65536 * 65536;
  }

  /** The low `k` bytes of `n`, least significant first: a store on the little-endian machines the program targets. */
  function LE(n: nat, k: nat): (r: seq<byte>)
    ensures |r| == k
  {
    if k == 0 then [] else [(n % 256) as byte] + LE(n / 256, k - 1)
  }

  function FromLE(s: seq<byte>): nat {
    if s == [] then 0 else s[0] as nat + 256 * FromLE(s[1..])
  }

  lemma {:induction false} LERoundTrip(n: nat, k: nat)
    requires n < Pow256(k)
    ensures FromLE(LE(n, k)) == n
  {
    if k > 0 {
      LERoundTrip(n / 256, k - 1);
      assert LE(n, k)[1..] == LE(n / 256, k - 1);
    }
  }

  lemma BytesOfLE(n: nat)
    requires n < TWO32
    ensures var s := LE(n, 4);
      n == s[0] as nat + 0x100 * s[1] as nat + 0x1_0000 * s[2] as nat + 0x100_0000 * s[3] as nat
  {
    var a, b, c := n / 256, n / 256 / 256, n / 256 / 256 / 256;
    assert LE(c, 1) == [(c % 256) as byte];
    assert LE(b, 2) == [(b % 256) as byte] + LE(c, 1);
    assert LE(a, 3) == [(a % 256) as byte] + LE(b, 2);
    assert LE(n, 4) == [(n % 256) as byte] + LE(a, 3);
  }

  lemma BytesOfLongLE(n: nat)
    requires n < TWO64
    ensures var s := LE(n, 8);
      n == s[0] as nat + 0x100 * s[1] as nat + 0x1_0000 * s[2] as nat + 0x100_0000 * s[3] as nat
           + 0x1_0000_0000 * (s[4] as nat + 0x100 * s[5] as nat + 0x1_0000 * s[6] as nat + 0x100_0000 * s[7] as nat)
  {
    var high := n / 256 / 256 / 256 / 256;
    assert LE(n / 256 / 256 / 256, 5) == [(n / 256 / 256 / 256 % 256) as byte] + LE(high, 4);
    assert LE(n / 256 / 256, 6) == [(n / 256 / 256 % 256) as byte] + LE(n / 256 / 256 / 256, 5);
    assert LE(n / 256, 7) == [(n / 256 % 256) as byte] + LE(n / 256 / 256, 6);
    assert LE(n, 8) == [(n % 256) as byte] + LE(n / 256, 7);
    BytesOfLE(high);
  }

  /** The low `k` bytes of `n`, most significant first: network order, what `htonl` and `ntohl` convert to. */
  function BE(n: nat, k: nat): (r: seq<byte>)
    ensures |r| == k
  {
    if k == 0 then [] else BE(n / 256, k - 1) + [(n % 256) as byte]
  }

  function FromBE(s: seq<byte>): nat {
    if s == [] then 0 else 256 * FromBE(s[..|s| - 1]) + s[|s| - 1] as nat
  }

  lemma {:induction false} BERoundTrip(n: nat, k: nat)
    requires n < Pow256(k)
    ensures FromBE(BE(n, k)) == n
  {
    if k > 0 {
      BERoundTrip(n / 256, k - 1);
      assert BE(n, k)[..k - 1] == BE(n / 256, k - 1);
    }
  }

  lemma BytesOfBE(n: nat)
    requires n < TWO32
    ensures var s := BE(n, 4);
      n == s[0] as nat * 0x100_0000 + s[1] as nat * 0x1_0000 + s[2] as nat * 0x100 + s[3] as nat
  {
    var a, b, c := n / 256, n / 256 / 256, n / 256 / 256 / 256;
    assert BE(c, 1) == [(c % 256) as byte];
    assert BE(b, 2) == BE(c, 1) + [(b % 256) as byte];
    assert BE(a, 3) == BE(b, 2) + [(a % 256) as byte];
    assert BE(n, 4) == BE(a, 3) + [(n % 256) as byte];
  }

  function Zeros(n: nat): (z: seq<byte>)
    ensures |z| == n
  {
    seq(n, _ => 0)
  }

  lemma ZerosSplit(a: nat, b: nat)
    ensures Zeros(a + b) == Zeros(a) + Zeros(b)
  {
  }

  /** Writing `x` right behind the used part of a zeroed buffer. */
  lemma Overwrite(used: seq<byte>, n: nat, x: seq<byte>)
    requires |x| <= n
    ensures (used + Zeros(n))[..|used|] + x + (used + Zeros(n))[|used| + |x|..] == used + x + Zeros(n - |x|)
  {
    assert (used + Zeros(n))[|used| + |x|..] == Zeros(n - |x|);
  }

  lemma SliceOfSlice<T>(s: seq<T>, a: nat, b: nat, i: nat, j: nat)
    requires a <= b <= |s| && i <= j <= b - a
    ensures s[a..b][i..j] == s[a + i..a + j]
  {
    forall k | 0 <= k < j - i ensures s[a..b][i..j][k] == s[a + i..a + j][k] {
    }
  }

  lemma Associate<T>(a: seq<T>, b: seq<T>, c: seq<T>)
    ensures (a + b) + c == a + (b + c)
  {
  }

  /** Two sequences joined and cut apart again. */
  lemma Cut<T>(a: seq<T>, b: seq<T>)
    ensures (a + b)[..|a|] == a && (a + b)[|a|..] == b
  {
  }

  /** What `enc` makes of each element, one after the other. */
  function Concat<T, U>(enc: T -> seq<U>, xs: seq<T>): seq<U> {
    if xs == [] then [] else enc(xs[0]) + Concat(enc, xs[1..])
  }

  lemma {:induction false} ConcatAppend<T, U>(enc: T -> seq<U>, a: seq<T>, b: seq<T>)
    ensures Concat(enc, a + b) == Concat(enc, a) + Concat(enc, b)
  {
    if a == [] {
      assert a + b == b;
    } else {
      ConcatAppend(enc, a[1..], b);
      assert (a + b)[0] == a[0] && (a + b)[1..] == a[1..] + b;
    }
  }

  lemma ConcatOne<T, U>(enc: T -> seq<U>, x: T)
    ensures Concat(enc, [x]) == enc(x)
  {
    assert Concat(enc, [x]) == enc(x) + Concat(enc, []);
  }

  lemma {:induction false} ConcatNone<T, U>(enc: T -> seq<U>, xs: seq<T>)
    requires forall i :: 0 <= i < |xs| ==> enc(xs[i]) == []
    ensures Concat(enc, xs) == []
  {
    if xs != [] {
      ConcatNone(enc, xs[1..]);
    }
  }

  lemma {:induction false} InConcat<T, U>(enc: T -> seq<U>, xs: seq<T>, y: U)
    ensures y in Concat(enc, xs) <==> exists i :: 0 <= i < |xs| && y in enc(xs[i])
  {
    if xs != [] {
      InConcat(enc, xs[1..], y);
      assert forall i :: 0 < i < |xs| ==> xs[i] == xs[1..][i - 1];
    }
  }

  lemma ConcatOnlyAt<T, U>(enc: T -> seq<U>, xs: seq<T>, i: nat)
    requires i < |xs| && forall j :: 0 <= j < |xs| && j != i ==> enc(xs[j]) == []
    ensures Concat(enc, xs) == enc(xs[i])
  {
    hide Concat;
    ConcatNone(enc, xs[..i]);
    ConcatNone(enc, xs[i + 1..]);
    ConcatAppend(enc, xs[..i], [xs[i]]);
    ConcatAppend(enc, xs[..i] + [xs[i]], xs[i + 1..]);
    assert xs[..i] + [xs[i]] + xs[i + 1..] == xs;
    ConcatOne(enc, xs[i]);
  }

  lemma ConcatNext<T, U>(enc: T -> seq<U>, xs: seq<T>, i: nat)
    requires i < |xs|
    ensures Concat(enc, xs[..i + 1]) == Concat(enc, xs[..i]) + enc(xs[i])
    ensures Concat(enc, xs) == Concat(enc, xs[..i + 1]) + Concat(enc, xs[i + 1..])
  {
    ConcatAppend(enc, xs[..i], [xs[i]]);
    assert xs[..i] + [xs[i]] == xs[..i + 1];
    assert Concat(enc, [xs[i]]) == enc(xs[i]) + Concat(enc, []);
    ConcatAppend(enc, xs[..i + 1], xs[i + 1..]);
    assert xs[..i + 1] + xs[i + 1..] == xs;
  }

  /** `memcpy(dst + at, src, |src|)`. */
  method Memcpy(dst: array<byte>, at: nat, src: seq<byte>)
    requires at + |src| <= dst.Length
    modifies dst
    ensures dst[..] == old(dst[..at]) + src + old(dst[at + |src|..])
  {
    for i := 0 to |src|
      invariant dst[at..at + i] == src[..i]
      invariant dst[..at] == old(dst[..at]) && dst[at + i..] == old(dst[at + i..])
    {
      dst[at + i] := src[i];
      assert dst[at..at + i + 1] == dst[at..at + i] + [src[i]];
    }
    assert dst[..] == dst[..at] + dst[at..at + |src|] + dst[at + |src|..];
  }

  /** The C string that starts at `pos`; None when `strlen` would run off the buffer. */
  function StrAt(buf: seq<byte>, pos: nat): Option<CStr>
    decreases |buf| - pos
  {
    if pos >= |buf| then None
    else if buf[pos] == 0 then Some([])
    else match StrAt(buf, pos + 1)
      case None => None
      case Some(s) => Some([buf[pos]] + s)
  }

  /** `strlen` stops at the first NUL and nowhere else. */
  lemma {:induction false} StrAtFinds(buf: seq<byte>, pos: nat, s: CStr)
    requires pos + |s| < |buf|
    requires buf[pos..pos + |s|] == s && buf[pos + |s|] == 0
    ensures StrAt(buf, pos) == Some(s)
    decreases |s|
  {
    if s != [] {
      assert buf[pos] == s[0] && s[0] in s;
      assert buf[pos + 1..pos + 1 + |s[1..]|] == s[1..];
      StrAtFinds(buf, pos + 1, s[1..]);
      assert s == [s[0]] + s[1..];
    } else {
      assert buf[pos] == 0;
    }
  }
}
