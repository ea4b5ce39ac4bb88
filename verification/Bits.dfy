/**
 Bytes, bits and the two orders in which DEFLATE packs numbers into bits
 (section 3.1.1 of RFC 1951): extra bits least significant first, Huffman
 codes most significant first.
 */
module Bits {
  import opened Basics

  type byte = b: int | 0 <= b < 256

  function Pow2(n: nat): (p: nat)
    ensures p > 0
  {
    if n == 0 then 1 else 2 * Pow2(n - 1)
  }

  lemma Doubled(x: nat, n: nat)
    ensures x * Pow2(n + 1) == 2 * (x * Pow2(n))
  {
  }

  lemma {:induction false} Pow2Add(a: nat, b: nat)
    ensures Pow2(a + b) == Pow2(a) * Pow2(b)
  {
    if a == 0 {
    } else {
      Pow2Add(a - 1, b);
      assert Pow2(a + b) == 2 * Pow2(a - 1 + b);
    }
  }

  lemma Pow2OfBytes()
    ensures Pow2(8) == 0x100 && Pow2(16) == 0x1_0000 && Pow2(32) == 0x1_0000_0000
  {
    assert Pow2(8) == 0x100;
    Pow2Add(8, 8);
    Pow2Add(16, 16);
  }

  /** The low `n` bits of `v`, least significant first. */
  function Lsb(v: nat, n: nat): (bits: seq<bool>)
    ensures |bits| == n
  {
    if n == 0 then [] else [v % 2 == 1] + Lsb(v / 2, n - 1)
  }

  /** The low `n` bits of `v`, most significant first. */
  function Msb(v: nat, n: nat): (bits: seq<bool>)
    ensures |bits| == n
  {
    if n == 0 then [] else Msb(v / 2, n - 1) + [v % 2 == 1]
  }

  /** The number whose bits, least significant first, are `bits`. */
  function Val(bits: seq<bool>): (v: nat)
    ensures v < Pow2(|bits|)
  {
    if bits == [] then 0 else (if bits[0] then 1 else 0) + 2 * Val(bits[1..])
  }

  /** The number whose bits, most significant first, are `bits`. */
  function MsbVal(bits: seq<bool>): (v: nat)
    ensures v < Pow2(|bits|)
  {
    if bits == [] then 0
    else 2 * MsbVal(bits[..|bits| - 1]) + (if bits[|bits| - 1] then 1 else 0)
  }

  lemma {:induction false} ValLsb(v: nat, n: nat)
    requires v < Pow2(n)
    ensures Val(Lsb(v, n)) == v
  {
    if n == 0 {
    } else {
      ValLsb(v / 2, n - 1);
      assert Lsb(v, n)[1..] == Lsb(v / 2, n - 1);
    }
  }

  lemma {:induction false} MsbValMsb(v: nat, n: nat)
    requires v < Pow2(n)
    ensures MsbVal(Msb(v, n)) == v
  {
    if n == 0 {
    } else {
      MsbValMsb(v / 2, n - 1);
      assert Msb(v, n)[..n - 1] == Msb(v / 2, n - 1);
    }
  }

  lemma {:induction false} ValSnoc(bits: seq<bool>, b: bool)
    ensures Val(bits + [b]) == Val(bits) + (if b then Pow2(|bits|) else 0)
  {
    if bits == [] {
      assert (bits + [b])[1..] == [];
    } else {
      ValSnoc(bits[1..], b);
      assert (bits + [b])[1..] == bits[1..] + [b];
    }
  }

  lemma {:induction false} LsbVal(bits: seq<bool>)
    ensures Lsb(Val(bits), |bits|) == bits
  {
    if bits == [] {
    } else {
      LsbVal(bits[1..]);
      assert Val(bits) / 2 == Val(bits[1..]);
    }
  }

  /** Writing `v` above the `a` bits of `h` appends its bits. */
  lemma {:induction false} LsbConcat(h: nat, a: nat, v: nat, c: nat)
    requires h < Pow2(a)
    ensures Lsb(h + v * Pow2(a), a + c) == Lsb(h, a) + Lsb(v, c)
  {
    if a == 0 {
    } else {
      var x := v * Pow2(a - 1);
      Doubled(v, a - 1);
      Halves(h, x);
      LsbConcat(h / 2, a - 1, v, c);
      LsbOf(h + 2 * x, a + c);
      LsbOf(h, a);
      hide Lsb, Pow2;
    }
  }

  lemma Halves(h: nat, x: nat)
    ensures (h + 2 * x) % 2 == h % 2 && (h + 2 * x) / 2 == h / 2 + x
  {
  }

  lemma LsbOf(v: nat, n: nat)
    requires n > 0
    ensures Lsb(v, n) == [v % 2 == 1] + Lsb(v / 2, n - 1)
  {
  }

  /** `v >> k`. */
  function Shr(v: nat, k: nat): nat {
    if k == 0 then v else Shr(v / 2, k - 1)
  }

  lemma {:induction false} ShrStep(v: nat, k: nat)
    ensures Shr(v, k + 1) == Shr(v, k) / 2
  {
    if k == 0 {
      assert Shr(v, 1) == Shr(v / 2, 0);
    } else {
      ShrStep(v / 2, k - 1);
    }
  }

  lemma {:induction false} ShrAtLeast(v: nat, k: nat, u: nat)
    requires v >= u * Pow2(k)
    ensures Shr(v, k) >= u
  {
    if k == 0 {
    } else {
      assert u * Pow2(k) == 2 * (u * Pow2(k - 1));
      ShrAtLeast(v / 2, k - 1, u);
    }
  }

  /** Dropping the last `k` bits of a code shifts it right by `k`. */
  lemma {:induction false} MsbPrefix(v: nat, n: nat, k: nat)
    requires k <= n
    ensures Msb(v, n)[..n - k] == Msb(Shr(v, k), n - k)
  {
    if k == 0 {
      assert Msb(v, n)[..n] == Msb(v, n);
    } else {
      MsbPrefix(v / 2, n - 1, k - 1);
      assert Msb(v, n)[..n - k] == Msb(v / 2, n - 1)[..n - k];
    }
  }

  /** The bits of a byte stream, each byte least significant bit first. */
  function BitsOf(bytes: seq<byte>): (bits: seq<bool>)
    ensures |bits| == 8 * |bytes|
  {
    if bytes == [] then []
    else BitsOf(bytes[..|bytes| - 1]) + Lsb(bytes[|bytes| - 1], 8)
  }

  lemma BitsOfSnoc(bytes: seq<byte>, b: byte)
    ensures BitsOf(bytes + [b]) == BitsOf(bytes) + Lsb(b, 8)
  {
    assert (bytes + [b])[..|bytes|] == bytes;
  }

  lemma {:induction false} BitsOfConcat(a: seq<byte>, b: seq<byte>)
    ensures BitsOf(a + b) == BitsOf(a) + BitsOf(b)
  {
    if b == [] {
      assert a + b == a;
    } else {
      var front, last := b[..|b| - 1], b[|b| - 1];
      BitsOfConcat(a, front);
      assert a + b == (a + front) + [last];
      BitsOfSnoc(a + front, last);
      Associative(BitsOf(a), BitsOf(front), Lsb(last, 8));
    }
  }

  lemma {:induction false} BitsOfByte(bytes: seq<byte>, i: nat)
    requires i < |bytes|
    ensures BitsOf(bytes)[8 * i..8 * i + 8] == Lsb(bytes[i], 8)
  {
    if i == |bytes| - 1 {
    } else {
      var front := bytes[..|bytes| - 1];
      BitsOfByte(front, i);
      assert BitsOf(bytes)[8 * i..8 * i + 8] == BitsOf(front)[8 * i..8 * i + 8];
    }
  }

  lemma Split<T>(s: seq<T>, a: nat, b: nat)
    requires a <= b <= |s|
    ensures s == s[..a] + (s[a..b] + s[b..])
  {
  }

  lemma BitsOfSlice(bytes: seq<byte>, a: nat, b: nat)
    requires a <= b <= |bytes|
    ensures BitsOf(bytes)[8 * a..8 * b] == BitsOf(bytes[a..b])
  {
    hide BitsOf;
    Split(bytes, a, b);
    BitsOfConcat(bytes[..a], bytes[a..b] + bytes[b..]);
    BitsOfConcat(bytes[a..b], bytes[b..]);
    Middle(BitsOf(bytes[..a]), BitsOf(bytes[a..b]), BitsOf(bytes[b..]));
  }

  lemma Middle<T>(x: seq<T>, y: seq<T>, z: seq<T>)
    ensures (x + (y + z))[|x|..|x| + |y|] == y
  {
  }

  /** `bits` stand in the stream `s` at position `p`. */
  predicate At(s: seq<bool>, p: nat, bits: seq<bool>) {
    p + |bits| <= |s| && s[p..p + |bits|] == bits
  }

  lemma AtConcat(s: seq<bool>, p: nat, a: seq<bool>, b: seq<bool>)
    ensures At(s, p, a + b) <==> At(s, p, a) && At(s, p + |a|, b)
  {
    if At(s, p, a + b) {
      assert s[p..p + |a|] == (a + b)[..|a|];
      assert s[p + |a|..p + |a| + |b|] == (a + b)[|a|..];
    }
    if At(s, p, a) && At(s, p + |a|, b) {
      assert s[p..p + |a| + |b|] == s[p..p + |a|] + s[p + |a|..p + |a| + |b|];
    }
  }

  /** The first bit position at or after `p` on a byte boundary. */
  function AlignUp(p: nat): (q: nat)
    ensures p <= q < p + 8 && q % 8 == 0
  {
    (p + 7) / 8 * 8
  }
}
