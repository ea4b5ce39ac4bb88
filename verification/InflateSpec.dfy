/**
 What inflating means: a function of the input's bits and a position in them.
 Each function takes the branches of the source in the source's order, so the
 first thing wrong with a stream is the error it is refused with.
 */
module InflateSpec {
  import opened Wrappers
  import opened Bits
  import opened ZlibErrors
  import opened Huffman
  import opened Canonical
  import opened Format
  import opened BitIO

  /** A tree that reads at least one bit for a symbol: every tree built from code lengths. */
  predicate Proper(n: Node) {
    Leaf(n) ==> n.symbol.None?
  }

  // ---- One compressed block ----

  /** The length that starts with the length symbol `sym`. */
  function LengthAt(s: seq<bool>, p: nat, sym: nat): (r: Decoded<(nat, nat)>)
    requires sym > 256 && p <= |s|
    ensures r.Success? ==> 3 <= r.value.0 <= 258 && p <= r.value.1 <= |s|
  {
    var idx := sym - 257;
    if idx >= |LENGTH_EXTRA_BITS| then Failure(InvalidLengthSymbol)
    else
      LengthTable(idx);
      var (extra, p1) :- ReadBitsAt(s, p, LENGTH_EXTRA_BITS[idx]);
      Success((extra + LENGTH_BASE[idx], p1))
  }

  /** A distance: its symbol and extra bits. */
  function DistanceAt(s: seq<bool>, p: nat, dist: Node): (r: Decoded<(nat, nat)>)
    requires p <= |s| && Proper(dist)
    ensures r.Success? ==> 1 <= r.value.0 <= 32768 && p < r.value.1 <= |s|
  {
    var (sym, p1) :- Decode(dist, s, p);
    if sym >= |DISTANCE_EXTRA_BITS| then Failure(InvalidDistanceSymbol)
    else
      DistanceTable(sym);
      var (extra, p2) :- ReadBitsAt(s, p1, DISTANCE_EXTRA_BITS[sym]);
      Success((extra + DISTANCE_BASE[sym], p2))
  }

  /** The output after the pair that starts with the length symbol `sym`. */
  function PairAt(s: seq<bool>, p: nat, sym: nat, dist: Node, out: seq<byte>): (r: Decoded<(seq<byte>, nat)>)
    requires sym > 256 && p <= |s| && Proper(dist)
    ensures r.Success? ==> |out| + 3 <= |r.value.0| <= |out| + 258 && p < r.value.1 <= |s|
  {
    var (length, p1) :- LengthAt(s, p, sym);
    var (distance, p2) :- DistanceAt(s, p1, dist);
    if distance > |out| then Failure(DistanceTooLarge)
    else Success((Copy(out, distance, length), p2))
  }

  /**
   The symbols of a block up to its end mark. A symbol costs at least one bit
   for one byte, a pair at least two for at most 258.
   */
  function BlockData(s: seq<bool>, p: nat, lit: Node, dist: Node, out: seq<byte>, maxOut: nat)
    : (r: Decoded<(seq<byte>, nat)>)
    requires p <= |s| && Proper(lit) && Proper(dist)
    ensures r.Success? ==>
              && p < r.value.1 <= |s|
              && |out| <= |r.value.0| <= maxOut
              && |r.value.0| - |out| <= 129 * (r.value.1 - p)
    decreases |s| - p
  {
    if |out| > maxOut then Failure(TooBig)
    else
      var (sym, p1) :- Decode(lit, s, p);
      if sym <= 255 then BlockData(s, p1, lit, dist, out + [sym], maxOut)
      else if sym == 256 then Success((out, p1))
      else
        var (out', p2) :- PairAt(s, p1, sym, dist, out);
        BlockData(s, p2, lit, dist, out', maxOut)
  }

  // ---- A stored block ----

  /** `n` bytes of the stream from the bit position `p`. */
  function BytesAt(s: seq<bool>, p: nat, n: nat): (r: seq<byte>)
    requires p + 8 * n <= |s|
    ensures |r| == n
  {
    if n == 0 then []
    else
      assert Pow2(8) == 256;
      BytesAt(s, p, n - 1) + [Val(s[p + 8 * (n - 1)..p + 8 * n])]
  }

  /** The length of a stored block; its complement is read and not compared. */
  function StoredLengthAt(s: seq<bool>, p: nat): (r: Decoded<(nat, nat)>)
    requires p <= |s|
    ensures r.Success? ==> p < r.value.1 <= |s| && r.value.1 % 8 == 0
  {
    var (len, p1) :- ReadBytesAt(s, p, 2);
    var (nlen, p2) :- ReadBytesAt(s, p1, 2);
    Success((len, p2))
  }

  function StoredAt(s: seq<bool>, p: nat, out: seq<byte>, maxOut: nat): (r: Decoded<(seq<byte>, nat)>)
    requires p <= |s|
    ensures r.Success? ==>
              && p < r.value.1 <= |s|
              && |out| <= |r.value.0| <= maxOut
              && |r.value.0| - |out| <= 129 * (r.value.1 - p)
  {
    var (len, p1) :- StoredLengthAt(s, p);
    if |out| + len > maxOut then Failure(TooBig)
    else if p1 + 8 * len > |s| then Failure(EndOfData)
    else Success((out + BytesAt(s, p1, len), p1 + 8 * len))
  }

  // ---- The trees of a block ----

  /** The symbols 0, 1, .. n - 1. */
  function Alphabet(n: nat): (a: seq<nat>)
    ensures |a| == n && forall i :: 0 <= i < n ==> a[i] == i
  {
    seq(n, i => i)
  }

  function Runs(n: nat, v: nat): (r: seq<nat>)
    ensures |r| == n && forall i :: 0 <= i < n ==> r[i] == v
  {
    seq(n, _ => v)
  }

  const FIXED := Codes(Runs(144, 8) + Runs(112, 9) + Runs(24, 7) + Runs(8, 8), Runs(30, 5))

  function LiteralTree(lengths: seq<nat>): Node {
    Tree(lengths, Alphabet(286))
  }

  function DistanceTree(lengths: seq<nat>): Node {
    Tree(lengths, Alphabet(30))
  }

  const CODE_LENGTH_CODES_ORDER: seq<nat> := [
    16, 17, 18, 0, 8, 7, 9, 6, 10, 5, 11, 4, 12, 3, 13, 2, 14, 1, 15]

  /** The code lengths of the code length alphabet, `n` of them present. */
  function ClensAt(s: seq<bool>, p: nat, n: nat): (r: Decoded<(seq<nat>, nat)>)
    requires n <= 19 && p <= |s|
    ensures r.Success? ==> |r.value.0| == 19 && r.value.1 == p + 3 * n <= |s|
    ensures r.Success? ==> AtMost(r.value.0, 7)
  {
    if n == 0 then Success((Runs(19, 0), p))
    else
      var (lengths, p1) :- ClensAt(s, p, n - 1);
      var (v, p2) :- ReadBitsAt(s, p1, 3);
      Success((lengths[CODE_LENGTH_CODES_ORDER[n - 1] := v], p2))
  }

  /** The list `bl` with the next run of the run-length code appended. */
  function RunAt(s: seq<bool>, p: nat, tree: Node, bl: seq<nat>): (r: Decoded<(seq<nat>, nat)>)
    requires p <= |s| && Proper(tree)
    ensures r.Success? ==> p < r.value.1 <= |s| && |r.value.0| > |bl|
  {
    var (sym, p1) :- Decode(tree, s, p);
    if sym <= 15 then Success((bl + [sym], p1))
    else if sym == 16 then
      if bl == [] then Failure(NoPreviousCodeLength)
      else
        var (n, p2) :- ReadBitsAt(s, p1, 2);
        Success((bl + Runs(n + 3, bl[|bl| - 1]), p2))
    else if sym == 17 then
      var (n, p2) :- ReadBitsAt(s, p1, 3);
      Success((bl + Runs(n + 3, 0), p2))
    else if sym == 18 then
      var (n, p2) :- ReadBitsAt(s, p1, 7);
      Success((bl + Runs(n + 11, 0), p2))
    else Failure(InvalidSymbol)
  }

  /** The run-length coded list of code lengths, until it holds `total` of them. */
  function LengthsAt(s: seq<bool>, p: nat, tree: Node, bl: seq<nat>, total: nat): (r: Decoded<(seq<nat>, nat)>)
    requires p <= |s| && Proper(tree)
    ensures r.Success? ==> p <= r.value.1 <= |s| && |r.value.0| >= total
    decreases |s| - p
  {
    if |bl| >= total then Success((bl, p))
    else
      var (bl', p') :- RunAt(s, p, tree, bl);
      LengthsAt(s, p', tree, bl', total)
  }

  /** The code lengths that follow the three counts of a dynamic block. */
  function ListsAt(s: seq<bool>, p: nat, hlit: nat, hdist: nat, hclen: nat): (r: Decoded<(Codes, nat)>)
    requires p <= |s| && hclen <= 19
    ensures r.Success? ==> p <= r.value.1 <= |s|
  {
    var (clens, p1) :- ClensAt(s, p, hclen);
    TreeProper(clens, Alphabet(19));
    var (bl, p2) :- LengthsAt(s, p1, Tree(clens, Alphabet(19)), [], hlit + hdist);
    Success((Codes(bl[..hlit], bl[hlit..]), p2))
  }

  /** How many literal, distance and code length codes follow. */
  function CountsAt(s: seq<bool>, p: nat): (r: Decoded<(nat, nat, nat, nat)>)
    requires p <= |s|
    ensures r.Success? ==> r.value.2 <= 19 && p < r.value.3 <= |s|
  {
    var (hlit, p1) :- ReadBitsAt(s, p, 5);
    var (hdist, p2) :- ReadBitsAt(s, p1, 5);
    var (hclen, p3) :- ReadBitsAt(s, p2, 4);
    assert Pow2(4) == 16;
    Success((hlit + 257, hdist + 1, hclen + 4, p3))
  }

  /** The code lengths a dynamic block declares. */
  function CodesAt(s: seq<bool>, p: nat): (r: Decoded<(Codes, nat)>)
    requires p <= |s|
    ensures r.Success? ==> p < r.value.1 <= |s|
  {
    var (hlit, hdist, hclen, p1) :- CountsAt(s, p);
    ListsAt(s, p1, hlit, hdist, hclen)
  }

  lemma {:induction false} TreeToProper(bl: seq<nat>, alphabet: seq<nat>, k: nat)
    requires k <= |bl|
    ensures TreeTo(bl, alphabet, k).symbol.None?
  {
    if k > 0 {
      TreeToProper(bl, alphabet, k - 1);
    }
  }

  lemma TreeProper(bl: seq<nat>, alphabet: seq<nat>)
    ensures Proper(Tree(bl, alphabet))
  {
    TreeToProper(bl, alphabet, |bl|);
  }

  // ---- Blocks and the zlib wrapping ----

  function CodedAt(s: seq<bool>, p: nat, c: Codes, out: seq<byte>, maxOut: nat): (r: Decoded<(seq<byte>, nat)>)
    requires p <= |s|
    ensures r.Success? ==>
              && p < r.value.1 <= |s|
              && |out| <= |r.value.0| <= maxOut
              && |r.value.0| - |out| <= 129 * (r.value.1 - p)
  {
    TreeProper(c.literal, Alphabet(286));
    TreeProper(c.distance, Alphabet(30));
    BlockData(s, p, LiteralTree(c.literal), DistanceTree(c.distance), out, maxOut)
  }

  function DynamicAt(s: seq<bool>, p: nat, out: seq<byte>, maxOut: nat): (r: Decoded<(seq<byte>, nat)>)
    requires p <= |s|
    ensures r.Success? ==>
              && p < r.value.1 <= |s|
              && |out| <= |r.value.0| <= maxOut
              && |r.value.0| - |out| <= 129 * (r.value.1 - p)
  {
    var (c, p1) :- CodesAt(s, p);
    CodedAt(s, p1, c, out, maxOut)
  }

  function BlockAt(s: seq<bool>, p: nat, btype: nat, out: seq<byte>, maxOut: nat): (r: Decoded<(seq<byte>, nat)>)
    requires p <= |s|
    ensures r.Success? ==>
              && p < r.value.1 <= |s|
              && |out| <= |r.value.0| <= maxOut
              && |r.value.0| - |out| <= 129 * (r.value.1 - p)
  {
    match btype
    case 0 => StoredAt(s, p, out, maxOut)
    case 1 => CodedAt(s, p, FIXED, out, maxOut)
    case 2 => DynamicAt(s, p, out, maxOut)
    case _ => Failure(InvalidBtype)
  }

  /** Blocks up to and including the one marked final. */
  function BlocksAt(s: seq<bool>, p: nat, out: seq<byte>, maxOut: nat): (r: Decoded<(seq<byte>, nat)>)
    requires p <= |s|
    ensures r.Success? ==>
              && p < r.value.1 <= |s|
              && |out| <= |r.value.0| <= maxOut
              && |r.value.0| - |out| <= 129 * (r.value.1 - p)
    decreases |s| - p
  {
    var (bfinal, p1) :- ReadBitAt(s, p);
    var (btype, p2) :- ReadBitsAt(s, p1, 2);
    var (out', p3) :- BlockAt(s, p2, btype, out, maxOut);
    if |out'| > maxOut then Failure(TooBig)
    else if bfinal then Success((out', p3))
    else BlocksAt(s, p3, out', maxOut)
  }

  /** RFC 1950's sums, unreduced: s1 is 1 plus the bytes, s2 the sum of every s1 on the way. */
  function S1(data: seq<byte>): nat {
    if data == [] then 1 else S1(data[..|data| - 1]) + data[|data| - 1]
  }

  function S2(data: seq<byte>): nat {
    if data == [] then 0 else S2(data[..|data| - 1]) + S1(data)
  }

  function Adler32(data: seq<byte>): (r: nat)
    ensures r < 0x1_0000_0000
  {
    S2(data) % 65521 * 65536 + S1(data) % 65521
  }

  /** `u32::swap_bytes`. */
  function SwapBytes(v: nat): nat {
    v % 256 * 0x100_0000 + v / 256 % 256 * 0x1_0000 + v / 0x1_0000 % 256 * 0x100 + v / 0x100_0000 % 256
  }

  /** Whether the two header bytes are ones the inflater takes (section 2.2 of RFC 1950). */
  function CheckHeader(input: seq<byte>): (r: Decoded<()>)
    ensures r.Success? ==> |input| >= 2
  {
    if |input| < 1 then Failure(EndOfData)
    else if input[0] % 16 != 8 then Failure(InvalidCm)
    else if input[0] / 16 > 7 then Failure(InvalidCinfo)
    else if |input| < 2 then Failure(EndOfData)
    else if (input[0] as int * 256 + input[1]) % 31 != 0 then Failure(HeaderChecksum)
    else if input[1] / 32 % 2 != 0 then Failure(PresetDictionary)
    else Success(())
  }

  function Inflate(input: seq<byte>, maxOut: nat): (r: Decoded<seq<byte>>)
    ensures r.Success? ==> |r.value| <= maxOut && |r.value| <= 1032 * |input|
  {
    var _ :- CheckHeader(input);
    var s := BitsOf(input);
    var (out, p) :- BlocksAt(s, 16, [], maxOut);
    var (trailer, _) :- ReadBytesAt(s, p, 4);
    if SwapBytes(trailer) != Adler32(out) then Failure(AdlerMismatch)
    else Success(out)
  }
}
