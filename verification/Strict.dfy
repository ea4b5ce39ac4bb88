/**
 The stricter streams of the two RFCs: the stored length's complement is one, there
 are at most 286 literal and length codes, no distance is longer than the window
 the header names, and a length of 258 has its own symbol. The inflater checks none
 of these, and accepts exactly these streams where a payload keeps to them.
 */
module Strict {
  import opened Wrappers
  import opened Bits
  import opened Huffman
  import opened Canonical
  import opened Format
  import opened BitIO
  import opened InflateSpec
  import opened Symbols
  import opened Headers
  import opened FixedCodes
  import opened Streams
  import opened Converse

  // ---- Strictness, of what the inflater reads ----

  predicate TameData(
    s: seq<bool>, p: nat, lit: Node, dist: Node, out: seq<byte>, maxOut: nat, window: nat)
    requires p <= |s| && Proper(lit) && Proper(dist) && BlockData(s, p, lit, dist, out, maxOut).Success?
    decreases |s| - p
  {
    var (sym, p1) := Decode(lit, s, p).value;
    if sym <= 255 then TameData(s, p1, lit, dist, out + [sym], maxOut, window)
    else if sym == 256 then true
    else
      var (length, p2) := LengthAt(s, p1, sym).value;
      var (distance, _) := DistanceAt(s, p2, dist).value;
      var (out', p3) := PairAt(s, p1, sym, dist, out).value;
      && distance <= window && (sym == 284 ==> length < 258)
      && TameData(s, p3, lit, dist, out', maxOut, window)
  }

  predicate TameCoded(s: seq<bool>, p: nat, c: Codes, out: seq<byte>, maxOut: nat, window: nat)
    requires p <= |s| && CodedAt(s, p, c, out, maxOut).Success?
  {
    TreeProper(c.literal, Alphabet(286));
    TreeProper(c.distance, Alphabet(30));
    TameData(s, p, LiteralTree(c.literal), DistanceTree(c.distance), out, maxOut, window)
  }

  predicate StrictAt(s: seq<bool>, p: nat, btype: nat, out: seq<byte>, maxOut: nat, window: nat)
    requires p <= |s| && BlockAt(s, p, btype, out, maxOut).Success?
  {
    match btype
    case 0 =>
      var (len, p1) := ReadBytesAt(s, p, 2).value;
      var (nlen, _) := ReadBytesAt(s, p1, 2).value;
      nlen + len == 65535
    case 1 => TameCoded(s, p, FIXED, out, maxOut, window)
    case _ =>
      var (c, p1) := CodesAt(s, p).value;
      CountsAt(s, p).value.0 <= 286 && TameCoded(s, p1, c, out, maxOut, window)
  }

  predicate AllStrictAt(s: seq<bool>, p: nat, out: seq<byte>, maxOut: nat, window: nat)
    requires p <= |s| && BlocksAt(s, p, out, maxOut).Success?
    decreases |s| - p
  {
    var (final, p1) := ReadBitAt(s, p).value;
    var (btype, p2) := ReadBitsAt(s, p1, 2).value;
    var (out', p3) := BlockAt(s, p2, btype, out, maxOut).value;
    && StrictAt(s, p2, btype, out, maxOut, window)
    && (!final ==> AllStrictAt(s, p3, out', maxOut, window))
  }

  /** As far as it is read, the payload keeps to what the source does not check. */
  predicate StrictPayload(z: seq<byte>, maxOut: nat) {
    |z| >= 2 && BlocksAt(BitsOf(z), 16, [], maxOut).Success? ==>
      AllStrictAt(BitsOf(z), 16, [], maxOut, Window(z))
  }

  // ---- They agree ----

  lemma TameStep(c: Codes, t: Token, out: seq<byte>, s: seq<bool>, p: nat, p2: nat, maxOut: nat, window: nat)
    requires c.Valid() && Encodable(c, t) && Applies(out, t) && At(s, p, TokenBits(c, t))
    requires |out| <= maxOut && p2 == p + |TokenBits(c, t)| <= |s| && CodedAt(s, p, c, out, maxOut).Success?
    ensures CodedAt(s, p2, c, Apply(out, t), maxOut).Success?
    ensures TameCoded(s, p, c, out, maxOut, window)
            <==> Tame(t, window) && TameCoded(s, p2, c, Apply(out, t), maxOut, window)
  {
    hide TokenBits, CodedAt, TameCoded, Apply, Applies, Encodable, At, Codes.Valid;
    TokenDecoded(c, t, out, s, p, p2, maxOut);
    if t.Literal? {
      LiteralTame(c, t, out, s, p, maxOut, window);
    } else {
      PairTame(c, t, out, s, p, p2, maxOut, window);
    }
  }

  lemma LiteralTame(c: Codes, t: Token, out: seq<byte>, s: seq<bool>, p: nat, maxOut: nat, window: nat)
    requires c.Valid() && Encodable(c, t) && t.Literal? && At(s, p, TokenBits(c, t)) && |out| <= maxOut
    requires CodedAt(s, p, c, out, maxOut).Success?
    ensures var p2 := p + |TokenBits(c, t)|;
            && p2 <= |s| && CodedAt(s, p2, c, Apply(out, t), maxOut).Success?
            && TameCoded(s, p, c, out, maxOut, window) == TameCoded(s, p2, c, Apply(out, t), maxOut, window)
  {
    hide Decode, Tree, CodeBits, PairAt, LengthAt, DistanceAt, At;
    TreeProper(c.literal, Alphabet(286));
    TreeProper(c.distance, Alphabet(30));
    SymbolDecoded(c.literal, 15, 286, t.value, s, p);
  }

  lemma PairTame(c: Codes, t: Token, out: seq<byte>, s: seq<bool>, p: nat, p2: nat, maxOut: nat, window: nat)
    requires c.Valid() && Encodable(c, t) && t.Pair? && Applies(out, t) && At(s, p, TokenBits(c, t))
    requires |out| <= maxOut && p2 == p + |TokenBits(c, t)| <= |s| && CodedAt(s, p, c, out, maxOut).Success?
    ensures CodedAt(s, p2, c, Apply(out, t), maxOut).Success?
    ensures TameCoded(s, p, c, out, maxOut, window)
            <==> Tame(t, window) && TameCoded(s, p2, c, Apply(out, t), maxOut, window)
  {
    hide Decode, Tree, TokenBits, PairAt, LengthAt, DistanceAt, Apply, Applies, At, BlockData, Token.Valid, Codes.Valid,
      Pow2, TameData;
    TreeProper(c.literal, Alphabet(286));
    TreeProper(c.distance, Alphabet(30));
    var p1 := p + c.literal[257 + t.length];
    PairDecoded(c, t, out, s, p, p1);
    PairReads(c, t, s, p, p1);
    hide Encodable, LiteralTree, DistanceTree;
    TameUnfold(s, p, LiteralTree(c.literal), DistanceTree(c.distance), out, maxOut, t, p1, Apply(out, t), p2, window);
  }

  /** What the length and the distance of a pair are read as. */
  lemma PairReads(c: Codes, t: Token, s: seq<bool>, p: nat, p1: nat)
    requires c.Valid() && Encodable(c, t) && t.Pair? && At(s, p, TokenBits(c, t))
    requires Proper(DistanceTree(c.distance)) && p1 == p + c.literal[257 + t.length] <= |s|
    ensures LengthAt(s, p1, 257 + t.length).Success? && LengthAt(s, p1, 257 + t.length).value.0 == t.Length()
    ensures var p2 := LengthAt(s, p1, 257 + t.length).value.1;
            && DistanceAt(s, p2, DistanceTree(c.distance)).Success?
            && DistanceAt(s, p2, DistanceTree(c.distance)).value.0 == t.Distance()
  {
    hide At, Lsb, CodeBits, TokenBits, Val, ReadBitsAt, Decode, Tree, Pow2, LengthAt, DistanceAt;
    var q1, p2, p3 := PairParts(c, t, s, p);
    ExtraDecoded(s, p1, t.lengthExtra, LENGTH_EXTRA_BITS[t.length]);
    SymbolDecoded(c.distance, 15, 30, t.distance, s, p2);
    ExtraDecoded(s, p3, t.distanceExtra, DISTANCE_EXTRA_BITS[t.distance]);
    LengthIs(s, p1, t, p2);
    DistanceIs(s, p2, t, DistanceTree(c.distance), p3, p3 + DISTANCE_EXTRA_BITS[t.distance]);
  }

  lemma TameUnfold(
    s: seq<bool>, p: nat, lit: Node, dist: Node, out: seq<byte>, maxOut: nat,
    t: Token, p1: nat, out': seq<byte>, p2: nat, window: nat)
    requires p <= p1 <= p2 <= |s| && Proper(lit) && Proper(dist) && |out| <= maxOut && t.Pair? && t.Valid()
    requires Decode(lit, s, p) == Success((257 + t.length, p1))
    requires PairAt(s, p1, 257 + t.length, dist, out) == Success((out', p2))
    requires LengthAt(s, p1, 257 + t.length).Success? && LengthAt(s, p1, 257 + t.length).value.0 == t.Length()
    requires var q := LengthAt(s, p1, 257 + t.length).value.1;
             DistanceAt(s, q, dist).Success? && DistanceAt(s, q, dist).value.0 == t.Distance()
    requires BlockData(s, p, lit, dist, out, maxOut).Success?
    ensures BlockData(s, p2, lit, dist, out', maxOut).Success?
    ensures TameData(s, p, lit, dist, out, maxOut, window)
            <==> Tame(t, window) && TameData(s, p2, lit, dist, out', maxOut, window)
  {
    hide Decode, PairAt, LengthAt, DistanceAt, Token.Length, Token.Distance, Token.Valid;
  }

  lemma {:induction false} TameIff(
    c: Codes, tokens: seq<Token>, out: seq<byte>, s: seq<bool>, p: nat, maxOut: nat, window: nat)
    requires c.Valid() && AllEncodable(c, tokens) && Expands(out, tokens)
    requires At(s, p, BlockBits(c, tokens)) && p <= |s| && CodedAt(s, p, c, out, maxOut).Success?
    ensures TameCoded(s, p, c, out, maxOut, window) <==> AllTame(tokens, window)
    decreases |tokens|
  {
    hide TokenBits, CodeBits, CodedAt, TameCoded, Apply, Encodable, Tree, Tame;
    if |out| > maxOut {
      TooBigAtOnce(s, p, c, out, maxOut);
    } else if tokens == [] {
      assert BlockBits(c, tokens) == CodeBits(c.literal, END_OF_BLOCK);
      EndTame(c, out, s, p, maxOut, window);
    } else {
      var first, rest := TokenBits(c, tokens[0]), BlockBits(c, tokens[1..]);
      assert BlockBits(c, tokens) == first + rest;
      AtConcat(s, p, first, rest);
      TameStep(c, tokens[0], out, s, p, p + |first|, maxOut, window);
      TameIff(c, tokens[1..], Apply(out, tokens[0]), s, p + |first|, maxOut, window);
      assert tokens == [tokens[0]] + tokens[1..];
    }
  }

  lemma EndTame(c: Codes, out: seq<byte>, s: seq<bool>, p: nat, maxOut: nat, window: nat)
    requires c.Valid() && At(s, p, CodeBits(c.literal, END_OF_BLOCK)) && p <= |s| && CodedAt(s, p, c, out, maxOut).Success?
    ensures TameCoded(s, p, c, out, maxOut, window)
  {
    hide Decode, Tree, CodeBits;
    TreeProper(c.literal, Alphabet(286));
    TreeProper(c.distance, Alphabet(30));
    SymbolDecoded(c.literal, 15, 286, END_OF_BLOCK, s, p);
  }

  lemma StoredStrict(b: Block, out: seq<byte>, s: seq<bool>, p: nat)
    requires b.Stored? && b.Valid(out) && b.Stands(out, s, p) && p <= |s|
    ensures ReadBytesAt(s, p, 2) == Success((|b.data|, AlignUp(p) + 16))
    ensures ReadBytesAt(s, AlignUp(p) + 16, 2).Success? && ReadBytesAt(s, AlignUp(p) + 16, 2).value.0 == b.nlen
  {
    hide Lsb, BitsOf, At, AlignUp, ReadBytesAt, Block.Stands;
    StoredParts(b, out, s, p);
    AlignedTwice(p);
    TwoBytes(s, p, |b.data|);
    TwoBytes(s, AlignUp(p) + 16, b.nlen);
  }

  lemma DynamicStrict(b: Block, out: seq<byte>, s: seq<bool>, p: nat, maxOut: nat, window: nat)
    requires b.Dynamic? && b.Valid(out) && b.Stands(out, s, p) && p <= |s| && DynamicAt(s, p, out, maxOut).Success?
    ensures CodesAt(s, p).Success? && CountsAt(s, p).Success? && CountsAt(s, p).value.0 == b.header.hlit
    ensures var (c, p1) := CodesAt(s, p).value;
            && CodedAt(s, p1, c, out, maxOut).Success?
            && (TameCoded(s, p1, c, out, maxOut, window) <==> AllTame(b.tokens, window))
  {
    hide At, BlockBits, CodedAt, TameCoded, CodesAt, CountsAt, Header.Valid, Header.Codes, Header.Bits, Block.Stands,
      Codes.Valid, AllTame, Expands, AllEncodable, DynamicAt;
    DynamicParts(b, out, s, p);
    HeaderDecoded(b.header, s, p);
    CountIs(b.header, s, p);
    var p1 := p + |b.header.Bits()|;
    DynamicIs(s, p, out, maxOut, b.header.Codes(), p1);
    TameIff(b.header.Codes(), b.tokens, out, s, p1, maxOut, window);
  }

  lemma CountIs(h: Header, s: seq<bool>, p: nat)
    requires h.Valid() && At(s, p, h.Bits()) && p <= |s|
    ensures CountsAt(s, p).Success? && CountsAt(s, p).value.0 == h.hlit
  {
    hide At, Header.Bits, Header.CountBits, CountsAt;
    HeaderParts(h, s, p);
    CountsDecoded(h, s, p);
  }

  lemma OneStrictIff(b: Block, out: seq<byte>, s: seq<bool>, p: nat, maxOut: nat, window: nat)
    requires b.Valid(out) && b.Stands(out, s, p) && p <= |s| && BlockAt(s, p, b.Type(), out, maxOut).Success?
    ensures StrictAt(s, p, b.Type(), out, maxOut, window) <==> StrictBlock(b, window)
  {
    hide StoredAt, CodedAt, TameCoded, CodesAt, CountsAt, ReadBytesAt, AllTame, At, AlignUp;
    match b
    case Stored(_, _) =>
      StoredStrict(b, out, s, p);
    case Fixed(tokens) =>
      FixedValid();
      TameIff(FIXED, tokens, out, s, p, maxOut, window);
    case Dynamic(_, _) =>
      DynamicStrict(b, out, s, p, maxOut, window);
  }

  /** Of blocks that stand in the stream: they are strict exactly when what is read of them is. */
  lemma {:induction false} StrictIff(
    blocks: seq<Block>, out: seq<byte>, s: seq<bool>, p: nat, maxOut: nat, window: nat)
    requires BlocksValid(out, blocks) && BlocksStand(out, s, p, blocks)
    requires p <= |s| && BlocksAt(s, p, out, maxOut).Success?
    ensures AllStrictAt(s, p, out, maxOut, window) <==> AllStrict(blocks, window)
    decreases |blocks|
  {
    hide Block.Valid, Block.Stands, Block.Output, Block.End, BlockAt, StrictAt, StrictBlock, ReadBitAt, ReadBitsAt, Lsb;
    var b := blocks[0];
    BlockHeaderDecoded(|blocks| == 1, b.Type(), s, p);
    OneBlockDecoded(b, out, s, p + 3, maxOut);
    OneStrictIff(b, out, s, p + 3, maxOut, window);
    if |blocks| > 1 {
      StrictIff(blocks[1..], b.Output(out), s, b.End(out, p + 3), maxOut, window);
      assert blocks == [b] + blocks[1..];
    }
  }

  /**
   Of any payload: it is a strict zlib stream for bytes that fit under the ceiling
   exactly when the inflater accepts it for them, its dynamic blocks have code
   lengths the format allows, and it keeps to what else the source does not check.
   */
  lemma StrictExactlyWhen(z: seq<byte>, data: seq<byte>, maxOut: nat)
    ensures IsStrictZlib(z, data) && |data| <= maxOut <==>
            Inflate(z, maxOut) == Success(data) && LawfulPayload(z, maxOut) && StrictPayload(z, maxOut)
  {
    hide BlocksAt, AllStrictAt, AllStrict, BlocksValid, BlocksStand, BlocksOutput, BlocksEnd, At, LawfulPayload, Window;
    InflatesExactlyTheStreams(z, data, maxOut);
    if IsZlib(z, data) && |data| <= maxOut {
      InflatesEveryStream(z, data, maxOut);
      forall blocks | IsZlibOf(z, data, blocks)
        ensures AllStrictAt(BitsOf(z), 16, [], maxOut, Window(z)) <==> AllStrict(blocks, Window(z))
      {
        StrictIff(blocks, [], BitsOf(z), 16, maxOut, Window(z));
      }
    }
  }
}
