/**
 The inflater as it runs: a bit reader, an output vector that grows a byte at a
 time, and loops. Every method computes what InflateSpec says, and none ever
 holds more output than the ceiling allows, whatever the input.
 */
module Inflater {
  import opened Wrappers
  import opened Bits
  import opened ZlibErrors
  import opened Huffman
  import opened Canonical
  import opened Format
  import opened BitIO
  import opened InflateSpec

  /** The output vector, with a high-water mark of what it has held. */
  class Sink {
    var bytes: seq<byte>
    ghost var peak: nat

    constructor ()
      ensures bytes == [] && peak == 0
    {
      bytes, peak := [], 0;
    }

    method Push(b: byte)
      modifies this
      ensures bytes == old(bytes) + [b]
      ensures peak == if |bytes| > old(peak) then |bytes| else old(peak)
    {
      bytes := bytes + [b];
      peak := if |bytes| > peak then |bytes| else peak;
    }
  }

  /** The output stays under its two bounds: the ceiling plus one copy, and 129 bytes a bit read. */
  ghost predicate Bounded(o: Sink, maxOut: nat, bits: nat)
    reads o
  {
    |o.bytes| <= o.peak && o.peak <= maxOut + 258 && o.peak <= 129 * bits
  }

  /** `bl_list_to_tree`. */
  method BlListToTree(bl: seq<nat>, alphabet: seq<nat>) returns (t: Node)
    ensures t == Tree(bl, alphabet)
  {
    var maxBits := 0;
    for i := 0 to |bl|
      invariant forall k :: 0 <= k < i ==> bl[k] <= maxBits
    {
      if bl[i] > maxBits {
        maxBits := bl[i];
      }
    }
    var nextCode := FirstCodes(bl, maxBits);
    t := EMPTY;
    for i := 0 to |bl|
      invariant t == TreeTo(bl, alphabet, i)
      invariant i <= |alphabet| ==>
                  forall l :: 0 < l <= maxBits ==> nextCode[l] == FirstCode(bl, l) + CountTo(bl, l, i)
    {
      if bl[i] != 0 && i < |alphabet| {
        t := Insert(t, Msb(nextCode[bl[i]], bl[i]), alphabet[i]);
        nextCode[bl[i]] := nextCode[bl[i]] + 1;
      }
    }
  }

  /** The smallest code of every length, by counting the codes that are shorter. */
  method FirstCodes(bl: seq<nat>, maxBits: nat) returns (nextCode: array<nat>)
    requires AtMost(bl, maxBits)
    ensures fresh(nextCode) && nextCode.Length == maxBits + 1
    ensures forall l :: 0 < l <= maxBits ==> nextCode[l] == FirstCode(bl, l)
  {
    var blCount := CountLengths(bl, maxBits);
    nextCode := new nat[maxBits + 1](_ => 0);
    var bits := 2;
    while bits <= maxBits
      invariant forall l :: 0 < l <= maxBits ==> blCount[l] == Count(bl, l)
      invariant forall l :: 0 < l < bits && l <= maxBits ==> nextCode[l] == FirstCode(bl, l)
    {
      var first := 2 * (nextCode[bits - 1] + blCount[bits - 1]);
      assert first == FirstCode(bl, bits);
      nextCode[bits] := first;
      bits := bits + 1;
    }
  }

  method CountLengths(bl: seq<nat>, maxBits: nat) returns (blCount: array<nat>)
    requires AtMost(bl, maxBits)
    ensures fresh(blCount) && blCount.Length == maxBits + 1
    ensures forall l :: 0 < l <= maxBits ==> blCount[l] == Count(bl, l)
  {
    blCount := new nat[maxBits + 1](_ => 0);
    for i := 0 to |bl|
      invariant forall l :: 0 < l <= maxBits ==> blCount[l] == CountTo(bl, l, i)
    {
      if bl[i] != 0 {
        blCount[bl[i]] := blCount[bl[i]] + 1;
      }
    }
  }

  method InflateBlockData(r: BitReader, lit: Node, dist: Node, o: Sink, maxOut: nat) returns (res: Decoded<()>)
    requires r.Valid() && Proper(lit) && Proper(dist)
    requires Bounded(o, maxOut, r.Position())
    modifies r, o
    ensures r.Valid()
    ensures o.peak <= maxOut + 258 && o.peak <= 1032 * |r.mem|
    ensures match BlockData(r.Stream(), old(r.Position()), lit, dist, old(o.bytes), maxOut)
            case Success(v) =>
              res == Success(()) && o.bytes == v.0 && r.Position() == v.1 && Bounded(o, maxOut, r.Position())
            case Failure(e) => res == Failure(e)
  {
    hide BitReader.Holds, BitReader.At0, Val, Pow2, BitsOf, Lsb, At;
    while true
      invariant r.Valid() && Bounded(o, maxOut, r.Position())
      invariant BlockData(r.Stream(), r.Position(), lit, dist, o.bytes, maxOut)
             == BlockData(r.Stream(), old(r.Position()), lit, dist, old(o.bytes), maxOut)
      decreases |r.Stream()| - r.Position()
    {
      if |o.bytes| > maxOut {
        return Failure(TooBig);
      }
      var sym := r.DecodeSymbol(lit);
      if sym.Failure? {
        return Failure(sym.error);
      }
      if sym.value <= 255 {
        o.Push(sym.value);
      } else if sym.value == 256 {
        return Success(());
      } else {
        var pair := InflatePair(r, sym.value, dist, o);
        if pair.Failure? {
          return Failure(pair.error);
        }
      }
    }
  }

  /** The rest of a pair once its length symbol is read, and the copy it asks for. */
  method InflatePair(r: BitReader, sym: nat, dist: Node, o: Sink) returns (res: Decoded<()>)
    requires r.Valid() && sym > 256 && Proper(dist) && |o.bytes| <= o.peak
    modifies r, o
    ensures r.Valid()
    ensures o.peak == if |o.bytes| > old(o.peak) then |o.bytes| else old(o.peak)
    ensures match PairAt(r.Stream(), old(r.Position()), sym, dist, old(o.bytes))
            case Success(v) => res == Success(()) && o.bytes == v.0 && r.Position() == v.1
            case Failure(e) => res == Failure(e) && o.bytes == old(o.bytes)
  {
    hide BitReader.Holds, BitReader.At0, Val, Pow2, BitsOf, Lsb, At;
    var length := ReadLength(r, sym);
    if length.Failure? {
      return Failure(length.error);
    }
    var distance := ReadDistance(r, dist);
    if distance.Failure? {
      return Failure(distance.error);
    }
    if distance.value > |o.bytes| {
      return Failure(DistanceTooLarge);
    }
    CopyBack(o, distance.value, length.value);
    res := Success(());
  }

  method ReadLength(r: BitReader, sym: nat) returns (res: Decoded<nat>)
    requires r.Valid() && sym > 256
    modifies r
    ensures r.Valid()
    ensures match LengthAt(r.Stream(), old(r.Position()), sym)
            case Success(v) => res == Success(v.0) && r.Position() == v.1
            case Failure(e) => res == Failure(e)
  {
    hide BitReader.Holds, BitReader.At0, Val, Pow2, BitsOf, Lsb, At;
    var idx := sym - 257;
    if idx >= |LENGTH_EXTRA_BITS| {
      return Failure(InvalidLengthSymbol);
    }
    var extra := r.ReadBits(LENGTH_EXTRA_BITS[idx]);
    if extra.Failure? {
      return Failure(extra.error);
    }
    res := Success(extra.value + LENGTH_BASE[idx]);
  }

  method ReadDistance(r: BitReader, dist: Node) returns (res: Decoded<nat>)
    requires r.Valid() && Proper(dist)
    modifies r
    ensures r.Valid()
    ensures match DistanceAt(r.Stream(), old(r.Position()), dist)
            case Success(v) => res == Success(v.0) && r.Position() == v.1
            case Failure(e) => res == Failure(e)
  {
    hide BitReader.Holds, BitReader.At0, Val, Pow2, BitsOf, Lsb, At;
    var sym := r.DecodeSymbol(dist);
    if sym.Failure? {
      return Failure(sym.error);
    }
    if sym.value >= |DISTANCE_EXTRA_BITS| {
      return Failure(InvalidDistanceSymbol);
    }
    var extra := r.ReadBits(DISTANCE_EXTRA_BITS[sym.value]);
    if extra.Failure? {
      return Failure(extra.error);
    }
    res := Success(extra.value + DISTANCE_BASE[sym.value]);
  }

  method CopyBack(o: Sink, distance: nat, length: nat)
    requires 1 <= distance <= |o.bytes| <= o.peak
    modifies o
    ensures o.bytes == Copy(old(o.bytes), distance, length)
    ensures o.peak == if |o.bytes| > old(o.peak) then |o.bytes| else old(o.peak)
  {
    for k := 0 to length
      invariant |o.bytes| == |old(o.bytes)| + k
      invariant Copy(o.bytes, distance, length - k) == Copy(old(o.bytes), distance, length)
      invariant o.peak == if |o.bytes| > old(o.peak) then |o.bytes| else old(o.peak)
    {
      o.Push(o.bytes[|o.bytes| - distance]);
    }
  }

  method InflateBlockNoCompression(r: BitReader, o: Sink, maxOut: nat) returns (res: Decoded<()>)
    requires r.Valid() && Bounded(o, maxOut, r.Position())
    modifies r, o
    ensures r.Valid()
    ensures o.peak <= maxOut + 258 && o.peak <= 1032 * |r.mem|
    ensures match StoredAt(r.Stream(), old(r.Position()), old(o.bytes), maxOut)
            case Success(v) =>
              res == Success(()) && o.bytes == v.0 && r.Position() == v.1 && Bounded(o, maxOut, r.Position())
            case Failure(e) => res == Failure(e)
  {
    hide BitReader.Holds, BitReader.At0, Val, Pow2, BitsOf, Lsb, At;
    var len := ReadStoredLength(r);
    if len.Failure? {
      return Failure(len.error);
    }
    if |o.bytes| + len.value > maxOut {
      return Failure(TooBig);
    }
    res := ReadStored(r, len.value, o, maxOut);
  }

  method ReadStoredLength(r: BitReader) returns (res: Decoded<nat>)
    requires r.Valid()
    modifies r
    ensures r.Valid()
    ensures match StoredLengthAt(r.Stream(), old(r.Position()))
            case Success(v) => res == Success(v.0) && r.Position() == v.1 == 8 * r.pos
            case Failure(e) => res == Failure(e)
  {
    hide BitReader.Holds, BitReader.At0, Val, Pow2, BitsOf, Lsb, At;
    var len := r.ReadBytes(2);
    if len.Failure? {
      return Failure(len.error);
    }
    var nlen := r.ReadBytes(2);
    if nlen.Failure? {
      return Failure(nlen.error);
    }
    res := Success(len.value);
  }

  method ReadStored(r: BitReader, len: nat, o: Sink, maxOut: nat) returns (res: Decoded<()>)
    requires r.Valid() && r.Position() == 8 * r.pos
    requires Bounded(o, maxOut, r.Position()) && |o.bytes| + len <= maxOut
    modifies r, o
    ensures r.Valid()
    ensures o.peak <= maxOut + 258 && o.peak <= 1032 * |r.mem|
    ensures res == if old(r.Position()) + 8 * len <= |r.Stream()| then Success(()) else Failure(EndOfData)
    ensures res.Success? ==>
              && o.bytes == old(o.bytes) + BytesAt(r.Stream(), old(r.Position()), len)
              && r.Position() == old(r.Position()) + 8 * len
              && Bounded(o, maxOut, r.Position())
  {
    hide BitReader.Holds, BitReader.At0, Val, Pow2, BitsOf, Lsb, At;
    ghost var first := r.pos;
    for k := 0 to len
      invariant r.Valid() && r.pos == first + k && r.Position() == 8 * r.pos
      invariant o.bytes == old(o.bytes) + r.mem[first..first + k]
      invariant Bounded(o, maxOut, r.Position())
    {
      var b := r.ReadByte();
      if b.Failure? {
        return Failure(b.error);
      }
      o.Push(b.value);
      assert r.mem[first..first + k + 1] == r.mem[first..first + k] + [b.value];
    }
    BytesAreMem(r.mem, first, len);
    res := Success(());
  }

  lemma {:induction false} BytesAreMem(mem: seq<byte>, first: nat, n: nat)
    requires first + n <= |mem|
    ensures BytesAt(BitsOf(mem), 8 * first, n) == mem[first..first + n]
  {
    if n > 0 {
      var k := first + n - 1;
      BytesAreMem(mem, first, n - 1);
      ByteAt(mem, k);
      assert BitsOf(mem)[8 * first + 8 * (n - 1)..8 * first + 8 * n] == BitsOf(mem)[8 * k..8 * k + 8];
      assert mem[first..k + 1] == mem[first..k] + [mem[k]];
    }
  }

  lemma ByteAt(mem: seq<byte>, k: nat)
    requires k < |mem|
    ensures Val(BitsOf(mem)[8 * k..8 * k + 8]) == mem[k]
  {
    BitsOfByte(mem, k);
    assert Pow2(8) == 256;
    ValLsb(mem[k], 8);
  }

  /** `decode_trees`, up to the code lengths the two trees are built from. */
  method ReadCodes(r: BitReader) returns (res: Decoded<Codes>)
    requires r.Valid()
    modifies r
    ensures r.Valid()
    ensures match CodesAt(r.Stream(), old(r.Position()))
            case Success(v) => res == Success(v.0) && r.Position() == v.1
            case Failure(e) => res == Failure(e)
  {
    hide BitReader.Holds, BitReader.At0, Val, Pow2, BitsOf, Lsb, At;
    var counts := ReadCounts(r);
    if counts.Failure? {
      return Failure(counts.error);
    }
    var (hlit, hdist, hclen) := counts.value;
    res := ReadLists(r, hlit, hdist, hclen);
  }

  method ReadCounts(r: BitReader) returns (res: Decoded<(nat, nat, nat)>)
    requires r.Valid()
    modifies r
    ensures r.Valid()
    ensures match CountsAt(r.Stream(), old(r.Position()))
            case Success(v) => res == Success((v.0, v.1, v.2)) && r.Position() == v.3
            case Failure(e) => res == Failure(e)
  {
    hide BitReader.Holds, BitReader.At0, Val, Pow2, BitsOf, Lsb, At;
    var hlit := r.ReadBits(5);
    if hlit.Failure? {
      return Failure(hlit.error);
    }
    var hdist := r.ReadBits(5);
    if hdist.Failure? {
      return Failure(hdist.error);
    }
    var hclen := r.ReadBits(4);
    if hclen.Failure? {
      return Failure(hclen.error);
    }
    res := Success((hlit.value + 257, hdist.value + 1, hclen.value + 4));
  }

  method ReadLists(r: BitReader, hlit: nat, hdist: nat, hclen: nat) returns (res: Decoded<Codes>)
    requires r.Valid() && hclen <= 19
    modifies r
    ensures r.Valid()
    ensures match ListsAt(r.Stream(), old(r.Position()), hlit, hdist, hclen)
            case Success(v) => res == Success(v.0) && r.Position() == v.1
            case Failure(e) => res == Failure(e)
  {
    hide BitReader.Holds, BitReader.At0, Val, Pow2, BitsOf, Lsb, At;
    var clens := ReadClens(r, hclen);
    if clens.Failure? {
      return Failure(clens.error);
    }
    TreeProper(clens.value, Alphabet(19));
    var tree := BlListToTree(clens.value, Alphabet(19));
    var bl := ReadLengths(r, tree, hlit + hdist);
    if bl.Failure? {
      return Failure(bl.error);
    }
    res := Success(Codes(bl.value[..hlit], bl.value[hlit..]));
  }

  method ReadClens(r: BitReader, n: nat) returns (res: Decoded<seq<nat>>)
    requires r.Valid() && n <= 19
    modifies r
    ensures r.Valid()
    ensures match ClensAt(r.Stream(), old(r.Position()), n)
            case Success(v) => res == Success(v.0) && r.Position() == v.1
            case Failure(e) => res == Failure(e)
  {
    hide BitReader.Holds, BitReader.At0, Val, Pow2, BitsOf, Lsb, At;
    var lengths := Runs(19, 0);
    for i := 0 to n
      invariant r.Valid()
      invariant ClensAt(r.Stream(), old(r.Position()), i) == Success((lengths, r.Position()))
    {
      ghost var p := r.Position();
      var v := r.ReadBits(3);
      ClensStep(r.Stream(), old(r.Position()), i, lengths, p);
      if v.Failure? {
        ClensFail(r.Stream(), old(r.Position()), i + 1, n);
        return Failure(v.error);
      }
      var at := CODE_LENGTH_CODES_ORDER[i];
      lengths := lengths[at := v.value];
    }
    res := Success(lengths);
  }

  lemma ClensStep(s: seq<bool>, p: nat, i: nat, lengths: seq<nat>, p1: nat)
    requires i < 19 && p <= |s| && ClensAt(s, p, i) == Success((lengths, p1))
    ensures CODE_LENGTH_CODES_ORDER[i] < 19
    ensures ClensAt(s, p, i + 1) == match ReadBitsAt(s, p1, 3)
                                    case Success(v) => Success((lengths[CODE_LENGTH_CODES_ORDER[i] := v.0], v.1))
                                    case Failure(e) => Failure(e)
  {
    hide Val, Pow2;
  }

  lemma {:induction false} ClensFail(s: seq<bool>, p: nat, i: nat, n: nat)
    requires i <= n <= 19 && p <= |s| && ClensAt(s, p, i).Failure?
    ensures ClensAt(s, p, n) == ClensAt(s, p, i)
  {
    if i < n {
      ClensFail(s, p, i, n - 1);
    }
  }

  method ReadLengths(r: BitReader, tree: Node, total: nat) returns (res: Decoded<seq<nat>>)
    requires r.Valid() && Proper(tree)
    modifies r
    ensures r.Valid()
    ensures match LengthsAt(r.Stream(), old(r.Position()), tree, [], total)
            case Success(v) => res == Success(v.0) && r.Position() == v.1
            case Failure(e) => res == Failure(e)
  {
    hide BitReader.Holds, BitReader.At0, Val, Pow2, BitsOf, Lsb, At;
    var bl: seq<nat> := [];
    while |bl| < total
      invariant r.Valid()
      invariant LengthsAt(r.Stream(), r.Position(), tree, bl, total)
             == LengthsAt(r.Stream(), old(r.Position()), tree, [], total)
      decreases |r.Stream()| - r.Position()
    {
      var next := ReadRun(r, tree, bl);
      if next.Failure? {
        return Failure(next.error);
      }
      bl := next.value;
    }
    res := Success(bl);
  }

  method ReadRun(r: BitReader, tree: Node, bl: seq<nat>) returns (res: Decoded<seq<nat>>)
    requires r.Valid() && Proper(tree)
    modifies r
    ensures r.Valid()
    ensures match RunAt(r.Stream(), old(r.Position()), tree, bl)
            case Success(v) => res == Success(v.0) && r.Position() == v.1
            case Failure(e) => res == Failure(e)
  {
    hide BitReader.Holds, BitReader.At0, Val, Pow2, BitsOf, Lsb, At;
    var sym := r.DecodeSymbol(tree);
    if sym.Failure? {
      return Failure(sym.error);
    }
    if sym.value <= 15 {
      res := Success(bl + [sym.value]);
    } else if sym.value == 16 {
      if bl == [] {
        return Failure(NoPreviousCodeLength);
      }
      res := ReadRepeat(r, 2, 3, bl, bl[|bl| - 1]);
    } else if sym.value == 17 {
      res := ReadRepeat(r, 3, 3, bl, 0);
    } else if sym.value == 18 {
      res := ReadRepeat(r, 7, 11, bl, 0);
    } else {
      res := Failure(InvalidSymbol);
    }
  }

  /** Read a repeat count and push `v` that often. */
  method ReadRepeat(r: BitReader, bits: nat, base: nat, bl: seq<nat>, v: nat) returns (res: Decoded<seq<nat>>)
    requires r.Valid()
    modifies r
    ensures r.Valid()
    ensures match ReadBitsAt(r.Stream(), old(r.Position()), bits)
            case Success(n) => res == Success(bl + Runs(n.0 + base, v)) && r.Position() == n.1
            case Failure(e) => res == Failure(e)
  {
    hide BitReader.Holds, BitReader.At0, Val, Pow2, BitsOf, Lsb, At;
    var n := r.ReadBits(bits);
    if n.Failure? {
      return Failure(n.error);
    }
    var list := bl;
    for k := 0 to n.value + base
      invariant list == bl + Runs(k, v)
    {
      list := list + [v];
    }
    res := Success(list);
  }

  /** Build the two trees and decode the block with them. */
  method InflateCoded(r: BitReader, c: Codes, o: Sink, maxOut: nat) returns (res: Decoded<()>)
    requires r.Valid() && Bounded(o, maxOut, r.Position())
    modifies r, o
    ensures r.Valid()
    ensures o.peak <= maxOut + 258 && o.peak <= 1032 * |r.mem|
    ensures match CodedAt(r.Stream(), old(r.Position()), c, old(o.bytes), maxOut)
            case Success(v) =>
              res == Success(()) && o.bytes == v.0 && r.Position() == v.1 && Bounded(o, maxOut, r.Position())
            case Failure(e) => res == Failure(e)
  {
    hide BitReader.Holds, BitReader.At0, Val, Pow2, BitsOf, Lsb, At;
    var lit := BlListToTree(c.literal, Alphabet(286));
    var dist := BlListToTree(c.distance, Alphabet(30));
    TreeProper(c.literal, Alphabet(286));
    TreeProper(c.distance, Alphabet(30));
    res := InflateBlockData(r, lit, dist, o, maxOut);
  }

  method InflateBlockDynamic(r: BitReader, o: Sink, maxOut: nat) returns (res: Decoded<()>)
    requires r.Valid() && Bounded(o, maxOut, r.Position())
    modifies r, o
    ensures r.Valid()
    ensures o.peak <= maxOut + 258 && o.peak <= 1032 * |r.mem|
    ensures match DynamicAt(r.Stream(), old(r.Position()), old(o.bytes), maxOut)
            case Success(v) =>
              res == Success(()) && o.bytes == v.0 && r.Position() == v.1 && Bounded(o, maxOut, r.Position())
            case Failure(e) => res == Failure(e)
  {
    hide BitReader.Holds, BitReader.At0, Val, Pow2, BitsOf, Lsb, At;
    var c := ReadCodes(r);
    if c.Failure? {
      return Failure(c.error);
    }
    res := InflateCoded(r, c.value, o, maxOut);
  }

  method InflateBlock(r: BitReader, btype: nat, o: Sink, maxOut: nat) returns (res: Decoded<()>)
    requires r.Valid() && Bounded(o, maxOut, r.Position())
    modifies r, o
    ensures r.Valid()
    ensures o.peak <= maxOut + 258 && o.peak <= 1032 * |r.mem|
    ensures match BlockAt(r.Stream(), old(r.Position()), btype, old(o.bytes), maxOut)
            case Success(v) =>
              res == Success(()) && o.bytes == v.0 && r.Position() == v.1 && Bounded(o, maxOut, r.Position())
            case Failure(e) => res == Failure(e)
  {
    hide BitReader.Holds, BitReader.At0, Val, Pow2, BitsOf, Lsb, At;
    match btype {
      case 0 => res := InflateBlockNoCompression(r, o, maxOut);
      case 1 => res := InflateCoded(r, FIXED, o, maxOut);
      case 2 => res := InflateBlockDynamic(r, o, maxOut);
      case _ => res := Failure(InvalidBtype);
    }
  }

  method InflateBlocks(r: BitReader, maxOut: nat) returns (res: Decoded<seq<byte>>, ghost peak: nat)
    requires r.Valid()
    modifies r
    ensures r.Valid()
    ensures peak <= maxOut + 258 && peak <= 1032 * |r.mem|
    ensures match BlocksAt(r.Stream(), old(r.Position()), [], maxOut)
            case Success(v) => res == Success(v.0) && r.Position() == v.1
            case Failure(e) => res == Failure(e)
  {
    hide BitReader.Holds, BitReader.At0, Val, Pow2, BitsOf, Lsb, At;
    var o := new Sink();
    peak := 0;
    var bfinal := false;
    while !bfinal
      invariant r.Valid() && Bounded(o, maxOut, r.Position()) && peak == o.peak
      invariant !bfinal ==>
                  (BlocksAt(r.Stream(), r.Position(), o.bytes, maxOut)
                == BlocksAt(r.Stream(), old(r.Position()), [], maxOut))
      invariant bfinal ==>
                  BlocksAt(r.Stream(), old(r.Position()), [], maxOut) == Success((o.bytes, r.Position()))
      decreases !bfinal, |r.Stream()| - r.Position()
    {
      var final := r.ReadBit();
      if final.Failure? {
        return Failure(final.error), peak;
      }
      var btype := r.ReadBits(2);
      if btype.Failure? {
        return Failure(btype.error), peak;
      }
      var block := InflateBlock(r, btype.value, o, maxOut);
      peak := o.peak;
      if block.Failure? {
        return Failure(block.error), peak;
      }
      if |o.bytes| > maxOut {
        return Failure(TooBig), peak;
      }
      bfinal := final.value;
    }
    res := Success(o.bytes);
  }

  method Adler32Of(data: seq<byte>) returns (r: nat)
    ensures r == Adler32(data)
  {
    var a: nat, b: nat := 1, 0;
    for i := 0 to |data|
      invariant a == S1(data[..i]) % 65521 && b == S2(data[..i]) % 65521
    {
      SumsStep(data, i);
      a := (a + data[i] as int) % 65521;
      b := (b + a) % 65521;
    }
    assert data[..|data|] == data;
    r := b * 65536 + a;
  }

  lemma SumsStep(data: seq<byte>, i: nat)
    requires i < |data|
    ensures S1(data[..i + 1]) % 65521 == (S1(data[..i]) % 65521 + data[i] as int) % 65521
    ensures S2(data[..i + 1]) % 65521 == (S2(data[..i]) % 65521 + S1(data[..i + 1]) % 65521) % 65521
  {
    assert data[..i + 1][..i] == data[..i];
    ModOfSum(S1(data[..i]), data[i]);
    ModOfSum(S2(data[..i]), S1(data[..i + 1]) % 65521);
    ModOfSum(S1(data[..i + 1]), S2(data[..i]));
  }

  lemma ModOfSum(x: nat, y: nat)
    ensures (x % 65521 + y) % 65521 == (x + y) % 65521
  {
  }

  method ReadHeader(r: BitReader) returns (res: Decoded<()>)
    requires r.Valid() && r.pos == 0
    modifies r
    ensures r.Valid()
    ensures res == CheckHeader(r.mem)
    ensures res.Success? ==> r.Position() == 16
  {
    hide BitReader.Holds, BitReader.At0, Val, Pow2, BitsOf, Lsb, At;
    var cmf := r.ReadByte();
    if cmf.Failure? {
      return Failure(cmf.error);
    }
    if cmf.value % 16 != 8 {
      return Failure(InvalidCm);
    }
    if cmf.value / 16 % 16 > 7 {
      return Failure(InvalidCinfo);
    }
    var flg := r.ReadByte();
    if flg.Failure? {
      return Failure(flg.error);
    }
    if (cmf.value as int * 256 + flg.value) % 31 != 0 {
      return Failure(HeaderChecksum);
    }
    if flg.value / 32 % 2 != 0 {
      return Failure(PresetDictionary);
    }
    res := Success(());
  }

  /** `inflate_limited`: `peak` is the most output ever held, also by a run that fails. */
  method InflateLimited(input: seq<byte>, maxOut: nat) returns (res: Decoded<seq<byte>>, ghost peak: nat)
    ensures res == Inflate(input, maxOut)
    ensures peak <= maxOut + 258 && peak <= 1032 * |input|
  {
    peak := 0;
    var r := new BitReader(input);
    var header := ReadHeader(r);
    if header.Failure? {
      return Failure(header.error), peak;
    }
    var out;
    out, peak := InflateBlocks(r, maxOut);
    if out.Failure? {
      return Failure(out.error), peak;
    }
    var trailer := r.ReadBytes(4);
    if trailer.Failure? {
      return Failure(trailer.error), peak;
    }
    var sum := Adler32Of(out.value);
    if SwapBytes(trailer.value) != sum {
      return Failure(AdlerMismatch), peak;
    }
    res := Success(out.value);
  }
}
