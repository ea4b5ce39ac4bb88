/** The bit reader and bit writer of the zlib codec. */
module BitIO {
  import opened Basics
  import opened Wrappers
  import opened Bits
  import opened ZlibErrors
  import Huffman

  // ---- What reading means on the stream of bits ----

  function ReadBitAt(s: seq<bool>, p: nat): Decoded<(bool, nat)> {
    if p < |s| then Success((s[p], p + 1)) else Failure(EndOfData)
  }

  /** `n` bits as a number, least significant first. */
  function ReadBitsAt(s: seq<bool>, p: nat, n: nat): (r: Decoded<(nat, nat)>)
    ensures r.Success? ==> r.value.0 < Pow2(n) && r.value.1 == p + n <= |s|
  {
    if p + n <= |s| then Success((Val(s[p..p + n]), p + n)) else Failure(EndOfData)
  }

  /** `n` whole bytes as a little-endian number, after skipping to a byte boundary. */
  function ReadBytesAt(s: seq<bool>, p: nat, n: nat): (r: Decoded<(nat, nat)>)
    ensures r.Success? && n > 0 ==> r.value.1 == AlignUp(p) + 8 * n <= |s|
    ensures r.Success? && n == 0 ==> r.value.1 == p
  {
    if n == 0 then Success((0, p)) else ReadBitsAt(s, AlignUp(p), 8 * n)
  }

  class BitReader {
    const mem: seq<byte>
    var pos: nat
    var b: byte
    var numbits: nat

    ghost predicate Valid()
      reads this
    {
      Holds() && numbits < 8
    }

    /** `b` holds the `numbits` bits that precede byte `pos`. */
    ghost predicate Holds()
      reads this
    {
      && pos <= |mem|
      && numbits <= 8 * pos
      && b as int < Pow2(numbits)
      && At(Stream(), At0(), Lsb(b, numbits))
    }

    /** The whole input as bits. */
    ghost function Stream(): (s: seq<bool>)
      ensures |s| == 8 * |mem|
    {
      BitsOf(mem)
    }

    ghost function At0(): nat
      reads this
      requires numbits <= 8 * pos
    {
      8 * pos - numbits
    }

    /** How many bits have been consumed. */
    ghost function Position(): (p: nat)
      reads this
      requires Valid()
      ensures p <= |Stream()| && AlignUp(p) == 8 * pos
    {
      At0()
    }

    constructor (mem: seq<byte>)
      ensures Valid() && this.mem == mem && Position() == 0
    {
      this.mem := mem;
      pos, b, numbits := 0, 0, 0;
    }

    method ReadByte() returns (r: Decoded<byte>)
      requires Valid()
      modifies this
      ensures Valid()
      ensures r.Success? <==> old(pos) < |mem|
      ensures r.Failure? ==> r.error == EndOfData
      ensures r.Success? ==>
                && r.value == mem[old(pos)]
                && pos == old(pos) + 1
                && Position() == 8 * pos
    {
      numbits, b := 0, 0; // discard unread bits
      if pos >= |mem| {
        return Failure(EndOfData);
      }
      r := Success(mem[pos]);
      pos := pos + 1;
    }

    method ReadBit() returns (r: Decoded<bool>)
      requires Valid()
      modifies this
      ensures Valid()
      ensures match ReadBitAt(Stream(), old(Position()))
              case Success(v) => r == Success(v.0) && Position() == v.1
              case Failure(e) => r == Failure(e)
    {
      if numbits <= 0 {
        if pos >= |mem| {
          return Failure(EndOfData);
        }
        LoadByte();
      }
      hide Pow2, Lsb, BitsOf, At;
      LowBit(Stream(), At0(), b, numbits);
      numbits := numbits - 1;
      r := Success(b % 2 == 1);
      b := b / 2;
    }

    method LoadByte()
      requires Valid() && numbits == 0 && pos < |mem|
      modifies this
      ensures Holds() && numbits == 8 && At0() == old(Position())
    {
      BitsOfByte(mem, pos);
      b := mem[pos];
      pos := pos + 1;
      numbits := 8;
      assert Pow2(8) == 256;
    }

    method ReadBits(n: nat) returns (r: Decoded<nat>)
      requires Valid()
      modifies this
      ensures Valid()
      ensures match ReadBitsAt(Stream(), old(Position()), n)
              case Success(v) => r == Success(v.0) && Position() == v.1
              case Failure(e) => r == Failure(e)
    {
      hide BitReader.Holds, BitReader.At0, BitReader.Stream, Val, Pow2, BitsOf;
      var o := 0;
      ghost var p := Position();
      NoBits(Stream(), p);
      for i := 0 to n
        invariant Valid()
        invariant p + i <= |Stream()| && Position() == p + i
        invariant o == Val(Stream()[p..p + i])
      {
        var bit := ReadBit();
        if bit.Failure? {
          return Failure(bit.error);
        }
        NextBit(Stream(), p, i);
        o := o + (if bit.value then Pow2(i) else 0);
      }
      r := Success(o);
    }

    method ReadBytes(n: nat) returns (r: Decoded<nat>)
      requires Valid()
      modifies this
      ensures Valid()
      ensures match ReadBytesAt(Stream(), old(Position()), n)
              case Success(v) => r == Success(v.0) && Position() == v.1
              case Failure(e) => r == Failure(e)
    {
      hide BitReader.Holds, BitReader.At0, Val, Pow2, BitsOf, ReadBytesAt, AlignUp;
      var o := 0;
      ghost var first := pos;
      ghost var p := Position();
      NoBytes(mem, first);
      for i := 0 to n
        invariant Valid()
        invariant pos == first + i && first + i <= |mem|
        invariant i == 0 ==> Position() == p
        invariant i > 0 ==> Position() == 8 * pos
        invariant o == Val(BitsOf(mem[first..first + i]))
      {
        BytesRead(mem, p, first, i, n);
        var byte := ReadByte();
        if byte.Failure? {
          return Failure(byte.error);
        }
        NextByte(mem, first, i);
        o := o + byte.value * Pow2(8 * i);
      }
      BytesRead(mem, p, first, n, n);
      r := Success(o);
    }

    /** `decode_symbol`: walk the tree, one bit a step, until there is no way down. */
    method DecodeSymbol(t: Huffman.Node) returns (r: Decoded<nat>)
      requires Valid()
      modifies this
      ensures Valid()
      ensures match Huffman.Decode(t, Stream(), old(Position()))
              case Success(v) => r == Success(v.0) && Position() == v.1
              case Failure(e) => r == Failure(e)
    {
      var node := t;
      while node.left.Some? || node.right.Some?
        invariant Valid()
        invariant Huffman.Decode(node, Stream(), Position()) == Huffman.Decode(t, Stream(), old(Position()))
        decreases node
      {
        var bit := ReadBit();
        if bit.Failure? {
          return Failure(bit.error);
        }
        var next := if bit.value then node.right else node.left;
        if next.None? {
          return Failure(InvalidHuffmanCode);
        }
        node := next.value;
      }
      if node.symbol.None? {
        return Failure(NoSymbolFound);
      }
      r := Success(node.symbol.value);
    }
  }

  lemma LowBit(s: seq<bool>, p: nat, v: nat, n: nat)
    requires n > 0 && v < Pow2(n) && At(s, p, Lsb(v, n))
    ensures p < |s| && s[p] == (v % 2 == 1)
    ensures v / 2 < Pow2(n - 1) && At(s, p + 1, Lsb(v / 2, n - 1))
  {
    AtConcat(s, p, [v % 2 == 1], Lsb(v / 2, n - 1));
    assert s[p] == s[p..p + 1][0];
  }

  lemma NoBits(s: seq<bool>, p: nat)
    requires p <= |s|
    ensures Val(s[p..p]) == 0
  {
  }

  lemma NextBit(s: seq<bool>, p: nat, i: nat)
    requires p + i < |s|
    ensures Val(s[p..p + i + 1]) == Val(s[p..p + i]) + (if s[p + i] then Pow2(i) else 0)
  {
    hide Val, Pow2;
    assert s[p..p + i + 1] == s[p..p + i] + [s[p + i]];
    ValSnoc(s[p..p + i], s[p + i]);
  }

  lemma {:induction false} ValConcat(a: seq<bool>, b: seq<bool>)
    ensures Val(a + b) == Val(a) + Val(b) * Pow2(|a|)
  {
    if a == [] {
      assert a + b == b;
    } else {
      ValConcat(a[1..], b);
      assert (a + b)[1..] == a[1..] + b;
      ValUnfold(a);
      ValUnfold(a + b);
      hide Val, Pow2;
      Doubled(Val(b), |a| - 1);
    }
  }

  lemma ValUnfold(bits: seq<bool>)
    requires bits != []
    ensures Val(bits) == (if bits[0] then 1 else 0) + 2 * Val(bits[1..])
  {
  }

  lemma ValAppendByte(bits: seq<bool>, more: seq<bool>, v: nat)
    requires v < 256 && more == Lsb(v, 8)
    ensures Val(bits + more) == Val(bits) + v * Pow2(|bits|)
  {
    assert Pow2(8) == 256;
    ValLsb(v, 8);
    ValConcat(bits, more);
  }

  lemma NoBytes(mem: seq<byte>, first: nat)
    requires first <= |mem|
    ensures Val(BitsOf(mem[first..first])) == 0
  {
  }

  /** What reading `n` bytes gives once `i` of them are known to be there. */
  lemma BytesRead(mem: seq<byte>, p: nat, first: nat, i: nat, n: nat)
    requires AlignUp(p) == 8 * first && i <= n && first + i <= |mem|
    ensures i == n == 0 ==> ReadBytesAt(BitsOf(mem), p, n) == Success((0, p))
    ensures i == n > 0 ==>
              ReadBytesAt(BitsOf(mem), p, n) == Success((Val(BitsOf(mem[first..first + n])), 8 * (first + n)))
    ensures i < n && first + i == |mem| ==> ReadBytesAt(BitsOf(mem), p, n) == Failure(EndOfData)
  {
    hide Val, BitsOf, AlignUp, Pow2, ReadBytesAt;
    ReadsNone(BitsOf(mem), p);
    if i == n && n > 0 {
      ReadsAll(mem, p, first, n);
    } else if i < n && first + i == |mem| {
      ReadsShort(mem, p, first, n);
    }
  }

  lemma ReadsNone(s: seq<bool>, p: nat)
    ensures ReadBytesAt(s, p, 0) == Success((0, p))
  {
  }

  lemma ReadsAll(mem: seq<byte>, p: nat, first: nat, n: nat)
    requires AlignUp(p) == 8 * first && 0 < n && first + n <= |mem|
    ensures ReadBytesAt(BitsOf(mem), p, n) == Success((Val(BitsOf(mem[first..first + n])), 8 * (first + n)))
  {
    hide Val, BitsOf, AlignUp, Pow2, ReadBitsAt;
    BitsOfSlice(mem, first, first + n);
    ReadsSlice(BitsOf(mem), 8 * first, 8 * n, 8 * (first + n));
  }

  lemma ReadsSlice(s: seq<bool>, a: nat, n: nat, b: nat)
    requires a + n == b <= |s|
    ensures ReadBitsAt(s, a, n) == Success((Val(s[a..b]), b))
  {
    hide Val, Pow2;
  }

  lemma ReadsShort(mem: seq<byte>, p: nat, first: nat, n: nat)
    requires AlignUp(p) == 8 * first && first + n > |mem|
    ensures n > 0 ==> ReadBytesAt(BitsOf(mem), p, n) == Failure(EndOfData)
  {
    hide Val, BitsOf, AlignUp, Pow2;
    assert 8 * first + 8 * n > 8 * |mem|;
  }

  lemma NextByte(mem: seq<byte>, first: nat, i: nat)
    requires first + i < |mem|
    ensures Val(BitsOf(mem[first..first + i + 1]))
         == Val(BitsOf(mem[first..first + i])) + mem[first + i] * Pow2(8 * i)
  {
    assert mem[first..first + i + 1] == mem[first..first + i] + [mem[first + i]];
    BitsOfSnoc(mem[first..first + i], mem[first + i]);
    ValAppendByte(BitsOf(mem[first..first + i]), Lsb(mem[first + i], 8), mem[first + i]);
  }

  // ---- Writing ----

  class BitWriter {
    var out: seq<byte>
    var bit: nat
    var held: nat

    ghost predicate Valid()
      reads this
    {
      bit < 8 && held < Pow2(bit)
    }

    /** Every bit written so far, the two header bytes included. */
    ghost function Written(): seq<bool>
      reads this
    {
      BitsOf(out) + Lsb(held, bit)
    }

    constructor ()
      ensures Valid() && Written() == BitsOf([0x78, 0x01])
    {
      out, bit, held := [0x78, 0x01], 0, 0;
    }

    /** Appends the `count` low bits of `value`, as `Lsb` lists them. `held` is below 2^31 at all times. */
    method Bits(value: nat, count: nat)
      requires Valid() && count <= 24 && value < Pow2(count)
      modifies this
      ensures Valid() && Written() == old(Written()) + Lsb(value, count)
    {
      hide Pow2, Lsb, BitsOf;
      LsbConcat(held, bit, value, count);
      HeldFits(held, bit, value, count);
      Associative(BitsOf(out), Lsb(held, bit), Lsb(value, count));
      held := held + value * Pow2(bit);
      bit := bit + count;
      Flush();
    }

    /** Move the whole bytes held to the output. */
    method Flush()
      requires held < Pow2(bit)
      modifies this
      ensures Valid() && Written() == old(Written())
    {
      hide Pow2, Lsb, BitsOf;
      while bit >= 8
        invariant held < Pow2(bit) && Written() == old(Written())
      {
        LowByte(held, bit);
        HighBytes(held, bit);
        MoveOut(out, held % 256, Lsb(held, bit), Lsb(held / 256, bit - 8));
        out := out + [held % 256];
        held := held / 256;
        bit := bit - 8;
      }
    }

    /** Appends a code as `Msb` lists it, one bit at a time. */
    method Code(value: nat, count: nat)
      requires Valid()
      modifies this
      ensures Valid() && Written() == old(Written()) + Msb(value, count)
    {
      var i := count;
      ghost var before := Written();
      while i > 0
        invariant 0 <= i <= count
        invariant Valid() && Written() == before + Msb(Shr(value, i), count - i)
      {
        i := i - 1;
        ShrStep(value, i);
        var one := Shr(value, i) % 2;
        assert Lsb(one, 1) == [one == 1];
        Bits(one, 1);
      }
    }

    /** Pad to a byte with zeros and append the trailer, most significant byte first. */
    method Finish(trailer: nat) returns (r: seq<byte>)
      requires Valid() && trailer < 0x1_0000_0000
      modifies this
      ensures |r| >= 4 && r[|r| - 4..] == BigEndian(trailer)
      ensures BitsOf(r[..|r| - 4]) == old(Written()) + Lsb(0, Padding(|old(Written())|))
    {
      PadOut(out, held, bit);
      if bit > 0 {
        out := out + [held];
      }
      r := out + BigEndian(trailer);
      assert r[..|r| - 4] == out;
    }
  }

  lemma {:induction false} HeldFits(h: nat, a: nat, v: nat, c: nat)
    requires h < Pow2(a) && v < Pow2(c)
    ensures h + v * Pow2(a) < Pow2(a + c)
  {
    if a == 0 {
      assert v * Pow2(0) == v;
    } else {
      HeldFits(h / 2, a - 1, v, c);
      assert Pow2(a) == 2 * Pow2(a - 1) && Pow2(a + c) == 2 * Pow2(a - 1 + c);
      hide Pow2;
      Doubled(v, a - 1);
    }
  }

  lemma LowByte(held: nat, bit: nat)
    requires bit >= 8
    ensures Lsb(held, bit) == Lsb(held % 256, 8) + Lsb(held / 256, bit - 8)
  {
    assert Pow2(8) == 256;
    LsbConcat(held % 256, 8, held / 256, bit - 8);
  }

  lemma HighBytes(held: nat, bit: nat)
    requires bit >= 8 && held < Pow2(bit)
    ensures held / 256 < Pow2(bit - 8)
  {
    assert Pow2(8) == 256;
    Pow2Add(8, bit - 8);
  }

  lemma LastByte(held: nat, bit: nat)
    requires 0 < bit < 8 && held < Pow2(bit)
    ensures held < 256
  {
    assert Pow2(8) == 256;
    HeldFits(held, bit, 0, 8 - bit);
  }

  lemma LastBits(held: nat, bit: nat)
    requires 0 < bit < 8 && held < Pow2(bit)
    ensures Lsb(held, 8) == Lsb(held, bit) + Lsb(0, 8 - bit)
  {
    hide Lsb, Pow2;
    assert held + 0 * Pow2(bit) == held;
    LsbConcat(held, bit, 0, 8 - bit);
  }

  /** Appending a byte to the output appends its bits. */
  lemma MoveOut(out: seq<byte>, b: byte, held: seq<bool>, rest: seq<bool>)
    requires held == Lsb(b, 8) + rest
    ensures BitsOf(out + [b]) + rest == BitsOf(out) + held
  {
    BitsOfSnoc(out, b);
  }

  /** Four bytes, most significant first. */
  function BigEndian(v: nat): (r: seq<byte>)
    ensures |r| == 4
  {
    [v / 0x100_0000 % 256, v / 0x1_0000 % 256, v / 0x100 % 256, v % 256]
  }

  /** How many zero bits fill `n` bits up to a whole number of bytes. */
  function Padding(n: nat): nat {
    AlignUp(n) - n
  }

  lemma PaddingIs(bytes: nat, bit: nat)
    requires bit < 8
    ensures Padding(8 * bytes + bit) == if bit == 0 then 0 else 8 - bit
  {
  }

  lemma PadOut(out: seq<byte>, held: nat, bit: nat)
    requires bit < 8 && held < Pow2(bit)
    ensures held < 256
    ensures BitsOf(if bit > 0 then out + [held] else out)
         == BitsOf(out) + Lsb(held, bit) + Lsb(0, Padding(8 * |out| + bit))
  {
    PaddingIs(|out|, bit);
    if bit > 0 {
      LastByte(held, bit);
      LastBits(held, bit);
      BitsOfSnoc(out, held);
      Associative(BitsOf(out), Lsb(held, bit), Lsb(0, 8 - bit));
    } else {
      assert Lsb(held, 0) == [] && Lsb(0, 0) == [];
    }
  }
}
