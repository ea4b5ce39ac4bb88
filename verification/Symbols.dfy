/**
 The symbols of a compressed block are decoded back from their bits, under any
 code lengths with a Kraft sum of at most 1.
 */
module Symbols {
  import opened Wrappers
  import opened Bits
  import opened ZlibErrors
  import opened Huffman
  import opened Canonical
  import opened Format
  import opened BitIO
  import opened InflateSpec

  // ---- The symbols of a compressed block ----

  lemma SymbolDecoded(bl: seq<nat>, max: nat, n: nat, i: nat, s: seq<bool>, p: nat)
    requires Subscribed(bl, max) && Used(bl, i) && i < n && At(s, p, CodeBits(bl, i))
    ensures Decode(Tree(bl, Alphabet(n)), s, p) == Success((i, p + bl[i]))
  {
    DecodesCode(bl, Alphabet(n), max, i, s, p);
  }

  lemma ExtraDecoded(s: seq<bool>, p: nat, v: nat, n: nat)
    requires v < Pow2(n) && At(s, p, Lsb(v, n))
    ensures ReadBitsAt(s, p, n) == Success((v, p + n))
  {
    ValLsb(v, n);
  }

  /** Where the four parts of a pair stand. */
  lemma PairParts(c: Codes, t: Token, s: seq<bool>, p: nat) returns (p1: nat, p2: nat, p3: nat)
    requires Encodable(c, t) && t.Pair? && At(s, p, TokenBits(c, t))
    ensures At(s, p, CodeBits(c.literal, 257 + t.length)) && p1 == p + c.literal[257 + t.length]
    ensures At(s, p1, Lsb(t.lengthExtra, LENGTH_EXTRA_BITS[t.length])) && p2 == p1 + LENGTH_EXTRA_BITS[t.length]
    ensures At(s, p2, CodeBits(c.distance, t.distance)) && p3 == p2 + c.distance[t.distance]
    ensures At(s, p3, Lsb(t.distanceExtra, DISTANCE_EXTRA_BITS[t.distance]))
    ensures p + |TokenBits(c, t)| == p3 + DISTANCE_EXTRA_BITS[t.distance] <= |s|
  {
    hide Lsb, CodeBits, Pow2, At;
    var b1, b2 := CodeBits(c.literal, 257 + t.length), Lsb(t.lengthExtra, LENGTH_EXTRA_BITS[t.length]);
    var b3, b4 := CodeBits(c.distance, t.distance), Lsb(t.distanceExtra, DISTANCE_EXTRA_BITS[t.distance]);
    assert TokenBits(c, t) == b1 + (b2 + (b3 + b4));
    AtFour(s, p, b1, b2, b3, b4);
    p1, p2, p3 := p + |b1|, p + |b1| + |b2|, p + |b1| + |b2| + |b3|;
  }

  lemma AtFour(s: seq<bool>, p: nat, a: seq<bool>, b: seq<bool>, c: seq<bool>, d: seq<bool>)
    requires At(s, p, a + (b + (c + d)))
    ensures At(s, p, a) && At(s, p + |a|, b) && At(s, p + |a| + |b|, c) && At(s, p + |a| + |b| + |c|, d)
    ensures p + |a| + |b| + |c| + |d| <= |s|
  {
    assert p + |a| + |b| + |c| + |d| <= |s|;
    hide At;
    AtConcat(s, p, a, b + (c + d));
    AtConcat(s, p + |a|, b, c + d);
    AtConcat(s, p + |a| + |b|, c, d);
  }

  lemma PairDecoded(c: Codes, t: Token, out: seq<byte>, s: seq<bool>, p: nat, p1: nat)
    requires c.Valid() && Encodable(c, t) && t.Pair? && Applies(out, t) && At(s, p, TokenBits(c, t))
    requires Proper(DistanceTree(c.distance)) && p1 == p + c.literal[257 + t.length]
    ensures p1 <= |s| && Decode(LiteralTree(c.literal), s, p) == Success((257 + t.length, p1))
    ensures PairAt(s, p1, 257 + t.length, DistanceTree(c.distance), out)
         == Success((Apply(out, t), p + |TokenBits(c, t)|))
  {
    hide At, Lsb, CodeBits, TokenBits, Val, ReadBitsAt, Decode, Tree, Pow2, LengthAt, DistanceAt, PairAt, Copy;
    var q1, p2, p3 := PairParts(c, t, s, p);
    var p4 := p3 + DISTANCE_EXTRA_BITS[t.distance];
    SymbolDecoded(c.literal, 15, 286, 257 + t.length, s, p);
    ExtraDecoded(s, p1, t.lengthExtra, LENGTH_EXTRA_BITS[t.length]);
    SymbolDecoded(c.distance, 15, 30, t.distance, s, p2);
    ExtraDecoded(s, p3, t.distanceExtra, DISTANCE_EXTRA_BITS[t.distance]);
    LengthIs(s, p1, t, p2);
    DistanceIs(s, p2, t, DistanceTree(c.distance), p3, p4);
    PairIs(s, p1, t, DistanceTree(c.distance), out, p2, p4);
  }

  lemma PairIs(s: seq<bool>, p: nat, t: Token, dist: Node, out: seq<byte>, p1: nat, p2: nat)
    requires t.Pair? && Applies(out, t) && p <= p1 <= |s| && Proper(dist)
    requires LengthAt(s, p, 257 + t.length) == Success((t.Length(), p1))
    requires DistanceAt(s, p1, dist) == Success((t.Distance(), p2))
    ensures PairAt(s, p, 257 + t.length, dist, out) == Success((Apply(out, t), p2))
  {
    hide LengthAt, DistanceAt, Copy, Token.Length, Token.Distance;
  }

  lemma LengthIs(s: seq<bool>, p: nat, t: Token, p1: nat)
    requires t.Pair? && t.Valid() && p <= |s|
    requires ReadBitsAt(s, p, LENGTH_EXTRA_BITS[t.length]) == Success((t.lengthExtra, p1))
    ensures LengthAt(s, p, 257 + t.length) == Success((t.Length(), p1))
  {
    hide ReadBitsAt, Pow2;
  }

  lemma DistanceIs(s: seq<bool>, p: nat, t: Token, dist: Node, p1: nat, p2: nat)
    requires t.Pair? && t.Valid() && p <= |s| && Proper(dist)
    requires Decode(dist, s, p) == Success((t.distance, p1))
    requires ReadBitsAt(s, p1, DISTANCE_EXTRA_BITS[t.distance]) == Success((t.distanceExtra, p2))
    ensures DistanceAt(s, p, dist) == Success((t.Distance(), p2))
  {
    hide ReadBitsAt, Pow2, Decode;
  }

  lemma LiteralStep(c: Codes, t: Token, out: seq<byte>, s: seq<bool>, p: nat, maxOut: nat)
    requires c.Valid() && Encodable(c, t) && t.Literal? && At(s, p, TokenBits(c, t))
    requires |out| <= maxOut
    ensures CodedAt(s, p, c, out, maxOut) == CodedAt(s, p + |TokenBits(c, t)|, c, Apply(out, t), maxOut)
  {
    hide Decode, Tree, CodeBits, PairAt, At;
    TreeProper(c.literal, Alphabet(286));
    TreeProper(c.distance, Alphabet(30));
    SymbolDecoded(c.literal, 15, 286, t.value, s, p);
  }

  lemma PairStep(c: Codes, t: Token, out: seq<byte>, s: seq<bool>, p: nat, p2: nat, maxOut: nat)
    requires c.Valid() && Encodable(c, t) && t.Pair? && Applies(out, t) && At(s, p, TokenBits(c, t))
    requires |out| <= maxOut && p2 == p + |TokenBits(c, t)| <= |s|
    ensures CodedAt(s, p, c, out, maxOut) == CodedAt(s, p2, c, Apply(out, t), maxOut)
  {
    hide Decode, Tree, TokenBits, PairAt, Apply, Applies, At, BlockData, Token.Valid, Codes.Valid, Pow2;
    TreeProper(c.literal, Alphabet(286));
    TreeProper(c.distance, Alphabet(30));
    var p1 := p + c.literal[257 + t.length];
    PairDecoded(c, t, out, s, p, p1);
    hide Encodable, LiteralTree, DistanceTree;
    PairUnfold(s, p, LiteralTree(c.literal), DistanceTree(c.distance), out, maxOut,
               257 + t.length, p1, Apply(out, t), p2);
  }

  lemma PairUnfold(
    s: seq<bool>, p: nat, lit: Node, dist: Node, out: seq<byte>, maxOut: nat,
    sym: nat, p1: nat, out': seq<byte>, p2: nat)
    requires p <= p1 <= p2 <= |s| && Proper(lit) && Proper(dist) && |out| <= maxOut && sym > 256
    requires Decode(lit, s, p) == Success((sym, p1))
    requires PairAt(s, p1, sym, dist, out) == Success((out', p2))
    ensures BlockData(s, p, lit, dist, out, maxOut) == BlockData(s, p2, lit, dist, out', maxOut)
  {
    hide Decode, PairAt;
  }

  /** One symbol: the decoder moves past its bits and applies it. */
  lemma TokenDecoded(c: Codes, t: Token, out: seq<byte>, s: seq<bool>, p: nat, p2: nat, maxOut: nat)
    requires c.Valid() && Encodable(c, t) && Applies(out, t) && At(s, p, TokenBits(c, t))
    requires |out| <= maxOut && p2 == p + |TokenBits(c, t)| <= |s|
    ensures CodedAt(s, p, c, out, maxOut) == CodedAt(s, p2, c, Apply(out, t), maxOut)
  {
    hide TokenBits, CodedAt, Apply, Applies, Encodable, At, Codes.Valid;
    if t.Literal? {
      LiteralStep(c, t, out, s, p, maxOut);
    } else {
      PairStep(c, t, out, s, p, p2, maxOut);
    }
  }

  lemma TooBigAtOnce(s: seq<bool>, p: nat, c: Codes, out: seq<byte>, maxOut: nat)
    requires p <= |s| && |out| > maxOut
    ensures CodedAt(s, p, c, out, maxOut) == Failure(TooBig)
  {
  }

  /** A whole block: the decoder returns what its symbols stand for, or refuses what is too big. */
  lemma {:induction false} BlockDecoded(c: Codes, tokens: seq<Token>, out: seq<byte>, s: seq<bool>, p: nat, maxOut: nat)
    requires c.Valid() && AllEncodable(c, tokens) && Expands(out, tokens)
    requires At(s, p, BlockBits(c, tokens))
    ensures CodedAt(s, p, c, out, maxOut) ==
            if |Expand(out, tokens)| <= maxOut
            then Success((Expand(out, tokens), p + |BlockBits(c, tokens)|)) else Failure(TooBig)
    decreases |tokens|
  {
    hide TokenBits, CodeBits, CodedAt, Apply, Encodable, Tree;
    if |out| > maxOut {
      TooBigAtOnce(s, p, c, out, maxOut);
    } else if tokens == [] {
      assert BlockBits(c, tokens) == CodeBits(c.literal, END_OF_BLOCK);
      EndStep(c, out, s, p, maxOut);
    } else {
      var first, rest := TokenBits(c, tokens[0]), BlockBits(c, tokens[1..]);
      assert BlockBits(c, tokens) == first + rest;
      AtConcat(s, p, first, rest);
      TokenDecoded(c, tokens[0], out, s, p, p + |first|, maxOut);
      BlockDecoded(c, tokens[1..], Apply(out, tokens[0]), s, p + |first|, maxOut);
    }
  }

  lemma EndStep(c: Codes, out: seq<byte>, s: seq<bool>, p: nat, maxOut: nat)
    requires c.Valid() && At(s, p, CodeBits(c.literal, END_OF_BLOCK)) && |out| <= maxOut
    ensures CodedAt(s, p, c, out, maxOut) == Success((out, p + c.literal[END_OF_BLOCK]))
  {
    hide Decode, Tree, CodeBits;
    TreeProper(c.literal, Alphabet(286));
    TreeProper(c.distance, Alphabet(30));
    SymbolDecoded(c.literal, 15, 286, END_OF_BLOCK, s, p);
  }
}
