/** Little-endian numbers and writes into a block of memory. */
module Bytes {
  type byte = b: int | 0 <= b < 256

  function Pow256(k: nat): (r: nat)
    ensures r > 0
  {
    if k == 0 then 1 else 256 * Pow256(k - 1)
  }

  /** The `k` lowest bytes of `v`, the lowest first. */
  function Encode(v: nat, k: nat): (r: seq<byte>)
    ensures |r| == k
    decreases k
  {
    if k == 0 then [] else [v % 256] + Encode(v / 256, k - 1)
  }

  function Decode(bs: seq<byte>): nat {
    if bs == [] then 0 else bs[0] + 256 * Decode(bs[1..])
  }

  lemma LowestFirst(a: byte, v: nat, k: nat, bs: seq<byte>)
    ensures Encode(a as int + 256 * v, k + 1) == [a] + Encode(v, k)
    ensures Decode([a] + bs) == a as int + 256 * Decode(bs)
  {
    var n := a as int + 256 * v;
    assert n % 256 == a as int && n / 256 == v;
    assert ([a] + bs)[1..] == bs;
  }

  lemma TwoBytes(a: byte, b: byte)
    ensures Encode(a as int + 0x100 * b as int, 2) == [a, b] && Decode([a, b]) == a as int + 0x100 * b as int
  {
    hide Encode, Decode;
    NoBytes();
    LowestFirst(b, 0, 0, []);
    LowestFirst(a, b as int, 1, [b]);
    assert [b] + [] == [b] && [a] + [b] == [a, b];
  }

  lemma NoBytes()
    ensures Encode(0, 0) == [] && Decode([]) == 0
  {
  }

  /** The lowest byte comes first. */
  lemma FourBytes(a: byte, b: byte, c: byte, d: byte)
    ensures var v := a as int + 0x100 * b as int + 0x1_0000 * c as int + 0x100_0000 * d as int;
            Encode(v, 4) == [a, b, c, d] && Decode([a, b, c, d]) == v
  {
    hide Encode, Decode;
    TwoBytes(c, d);
    var v := c as int + 0x100 * d as int;
    LowestFirst(b, v, 2, [c, d]);
    LowestFirst(a, b as int + 256 * v, 3, [b, c, d]);
    assert [b] + [c, d] == [b, c, d] && [a] + [b, c, d] == [a, b, c, d];
  }

  /** What does not fit in `k` bytes is cut off. */
  lemma {:induction false} DecodeEncode(v: nat, k: nat)
    ensures Decode(Encode(v, k)) == v % Pow256(k)
    decreases k
  {
    if k > 0 {
      DecodeEncode(v / 256, k - 1);
      assert Encode(v, k)[1..] == Encode(v / 256, k - 1);
      ModByParts(v, Pow256(k - 1));
    }
  }

  lemma ModByParts(v: nat, p: nat)
    requires p > 0
    ensures v % 256 + 256 * ((v / 256) % p) == v % (256 * p)
  {
    var q, r := (v / 256) / p, (v / 256) % p;
    assert v == v % 256 + 256 * (q * p + r);
    assert v == (256 * p) * q + (v % 256 + 256 * r);
    Remainder(v, 256 * p, q, v % 256 + 256 * r);
  }

  lemma Remainder(v: nat, m: nat, q: nat, r: nat)
    requires v == m * q + r && r < m
    ensures v % m == r
  {
    var p := v / m;
    assert v == m * p + v % m;
    if p > q {
      Multiples(m, q, p);
      assert false;
    } else if p < q {
      Multiples(m, p, q);
      assert false;
    }
  }

  lemma {:induction false} Multiples(m: nat, a: nat, b: nat)
    requires a < b
    ensures m * a + m <= m * b
    decreases b
  {
    if a + 1 < b {
      Multiples(m, a, b - 1);
    }
    assert m * b == m * (b - 1) + m;
  }

  /** A number that fits comes back. */
  lemma DecodeEncodeFits(v: nat, k: nat)
    requires v < Pow256(k)
    ensures Decode(Encode(v, k)) == v
  {
    DecodeEncode(v, k);
    Remainder(v, Pow256(k), 0, v);
  }

  function Slice(mem: seq<byte>, off: nat, n: nat): (r: seq<byte>)
    requires off + n <= |mem|
    ensures |r| == n
  {
    mem[off..off + n]
  }

  function Put(mem: seq<byte>, off: nat, bs: seq<byte>): (r: seq<byte>)
    requires off + |bs| <= |mem|
    ensures |r| == |mem|
  {
    mem[..off] + bs + mem[off + |bs|..]
  }

  /** What was written is read back, and nothing else is changed. */
  lemma SliceOfPut(mem: seq<byte>, off: nat, bs: seq<byte>, p: nat, n: nat)
    requires off + |bs| <= |mem| && p + n <= |mem|
    ensures p == off && n == |bs| ==> Slice(Put(mem, off, bs), p, n) == bs
    ensures p + n <= off || off + |bs| <= p ==> Slice(Put(mem, off, bs), p, n) == Slice(mem, p, n)
  {
    var r := Put(mem, off, bs);
    forall k | 0 <= k < |mem|
      ensures r[k] == if off <= k < off + |bs| then bs[k - off] else mem[k]
    {
    }
  }

  /** A write inside a part is a write into that part. */
  lemma PutInSlice(mem: seq<byte>, off: nat, bs: seq<byte>, p: nat, n: nat)
    requires p <= off && off + |bs| <= p + n <= |mem|
    ensures Slice(Put(mem, off, bs), p, n) == Put(Slice(mem, p, n), off - p, bs)
  {
    var r := Put(mem, off, bs);
    forall k | 0 <= k < n
      ensures Slice(r, p, n)[k] == Put(Slice(mem, p, n), off - p, bs)[k]
    {
      assert r[p + k] == if off <= p + k < off + |bs| then bs[p + k - off] else mem[p + k];
    }
  }

  lemma SliceOfSlice(mem: seq<byte>, p: nat, n: nat, q: nat, m: nat)
    requires p + n <= |mem| && q + m <= n
    ensures Slice(Slice(mem, p, n), q, m) == Slice(mem, p + q, m)
  {
    var all, part := mem[p..p + n], mem[p + q..p + q + m];
    forall k | 0 <= k < m
      ensures part[k] == all[q + k]
    {
    }
  }

  lemma SliceOfThree(a: seq<byte>, b: seq<byte>, c: seq<byte>)
    ensures Slice(a + b + c, 0, |a|) == a && Slice(a + b + c, |a|, |b|) == b && Slice(a + b + c, |a| + |b|, |c|) == c
  {
  }
}
