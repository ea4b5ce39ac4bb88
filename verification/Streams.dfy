/**
 What a zlib stream is, independently of any decoder (RFC 1950 and RFC 1951):
 stored, fixed and dynamic blocks and the bits that carry them. The inflater
 accepts every such stream and returns exactly the bytes it stands for.
 */
module Streams {
  import opened Wrappers
  import opened Bits
  import opened ZlibErrors
  import opened Format
  import opened BitIO
  import opened InflateSpec
  import opened Symbols
  import opened Headers
  import opened FixedCodes

  /** A block as its writer describes it; `nlen` is whatever stands in the complement's place. */
  datatype Block =
    | Stored(nlen: nat, data: seq<byte>)
    | Fixed(tokens: seq<Token>)
    | Dynamic(header: Header, tokens: seq<Token>)
  {
    function Type(): nat {
      match this
      case Stored(_, _) => 0
      case Fixed(_) => 1
      case Dynamic(_, _) => 2
    }

    /** The block is well formed and means something after the output `out`. */
    predicate Valid(out: seq<byte>) {
      match this
      case Stored(nlen, data) => nlen < 65536 && |data| < 65536
      case Fixed(tokens) => AllEncodable(FIXED, tokens) && Expands(out, tokens)
      case Dynamic(h, tokens) =>
        h.Valid() && h.Codes().Valid() && AllEncodable(h.Codes(), tokens) && Expands(out, tokens)
    }

    /** The output once the block is decoded. */
    function Output(out: seq<byte>): (r: seq<byte>)
      requires Valid(out)
      ensures |r| >= |out|
    {
      match this
      case Stored(_, data) => out + data
      case Fixed(tokens) => Expand(out, tokens)
      case Dynamic(_, tokens) => Expand(out, tokens)
    }

    /** The bits of a coded block after its three header bits. */
    function Body(out: seq<byte>): seq<bool>
      requires Valid(out) && !Stored?
    {
      match this
      case Fixed(tokens) =>
        FixedValid();
        BlockBits(FIXED, tokens)
      case Dynamic(h, tokens) => h.Bits() + BlockBits(h.Codes(), tokens)
    }

    /** The position after the block when its body starts at `p`. */
    function End(out: seq<byte>, p: nat): nat
      requires Valid(out)
    {
      match this
      case Stored(_, data) => AlignUp(p) + 32 + 8 * |data|
      case _ => p + |Body(out)|
    }

    /** The block's body stands in the stream at `p`. */
    predicate Stands(out: seq<byte>, s: seq<bool>, p: nat)
      requires Valid(out)
    {
      match this
      case Stored(nlen, data) =>
        At(s, AlignUp(p), Lsb(|data|, 16) + (Lsb(nlen, 16) + BitsOf(data)))
      case _ => At(s, p, Body(out))
    }
  }

  predicate BlocksValid(out: seq<byte>, blocks: seq<Block>)
    decreases |blocks|
  {
    blocks != [] && blocks[0].Valid(out)
    && (|blocks| > 1 ==> BlocksValid(blocks[0].Output(out), blocks[1..]))
  }

  function BlocksOutput(out: seq<byte>, blocks: seq<Block>): (r: seq<byte>)
    requires BlocksValid(out, blocks)
    ensures |r| >= |out|
    decreases |blocks|
  {
    if |blocks| == 1 then blocks[0].Output(out) else BlocksOutput(blocks[0].Output(out), blocks[1..])
  }

  function BlocksEnd(out: seq<byte>, p: nat, blocks: seq<Block>): nat
    requires BlocksValid(out, blocks)
    decreases |blocks|
  {
    var end := blocks[0].End(out, p + 3);
    if |blocks| == 1 then end else BlocksEnd(blocks[0].Output(out), end, blocks[1..])
  }

  /** The blocks stand one after the other from `p`, the last one marked final. */
  predicate BlocksStand(out: seq<byte>, s: seq<bool>, p: nat, blocks: seq<Block>)
    requires BlocksValid(out, blocks)
    decreases |blocks|
  {
    && At(s, p, [|blocks| == 1] + Lsb(blocks[0].Type(), 2))
    && blocks[0].Stands(out, s, p + 3)
    && (|blocks| > 1 ==> BlocksStand(blocks[0].Output(out), s, blocks[0].End(out, p + 3), blocks[1..]))
  }

  // ---- Decoding ----

  lemma {:induction false} BytesDecoded(data: seq<byte>, s: seq<bool>, p: nat)
    requires At(s, p, BitsOf(data))
    ensures BytesAt(s, p, |data|) == data
  {
    if data != [] {
      var n := |data| - 1;
      AtConcat(s, p, BitsOf(data[..n]), Lsb(data[n], 8));
      BytesDecoded(data[..n], s, p);
      assert Pow2(8) == 256;
      ExtraDecoded(s, p + 8 * n, data[n], 8);
      assert data == data[..n] + [data[n]];
    }
  }

  lemma TwoBytes(s: seq<bool>, p: nat, v: nat)
    requires v < 65536 && At(s, AlignUp(p), Lsb(v, 16))
    ensures ReadBytesAt(s, p, 2) == Success((v, AlignUp(p) + 16))
  {
    Pow2OfBytes();
    ExtraDecoded(s, AlignUp(p), v, 16);
  }

  lemma AlignedTwice(p: nat)
    ensures AlignUp(AlignUp(p) + 16) == AlignUp(p) + 16
  {
  }

  lemma StoredLengthDecoded(s: seq<bool>, p: nat, len: nat, nlen: nat)
    requires p <= |s| && len < 65536 && nlen < 65536
    requires At(s, AlignUp(p), Lsb(len, 16)) && At(s, AlignUp(p) + 16, Lsb(nlen, 16))
    ensures StoredLengthAt(s, p) == Success((len, AlignUp(p) + 32))
  {
    hide Lsb, AlignUp, At, ReadBytesAt;
    AlignedTwice(p);
    TwoBytes(s, p, len);
    TwoBytes(s, AlignUp(p) + 16, nlen);
  }

  lemma StoredParts(b: Block, out: seq<byte>, s: seq<bool>, p: nat)
    requires b.Stored? && b.Valid(out) && b.Stands(out, s, p)
    ensures At(s, AlignUp(p), Lsb(|b.data|, 16)) && At(s, AlignUp(p) + 16, Lsb(b.nlen, 16))
    ensures At(s, AlignUp(p) + 32, BitsOf(b.data))
    ensures b.End(out, p) == AlignUp(p) + 32 + 8 * |b.data| <= |s|
  {
    var q := AlignUp(p);
    var len, nlen, data := Lsb(|b.data|, 16), Lsb(b.nlen, 16), BitsOf(b.data);
    assert q + |len + (nlen + data)| <= |s|;
    hide Lsb, BitsOf, At, AlignUp;
    AtConcat(s, q, len, nlen + data);
    AtConcat(s, q + 16, nlen, data);
  }

  lemma StoredDecoded(b: Block, out: seq<byte>, s: seq<bool>, p: nat, maxOut: nat)
    requires b.Stored? && b.Valid(out) && b.Stands(out, s, p)
    ensures p <= |s| && b.End(out, p) <= |s|
    ensures StoredAt(s, p, out, maxOut) ==
            if |b.Output(out)| <= maxOut then Success((b.Output(out), b.End(out, p))) else Failure(TooBig)
  {
    hide Lsb, BitsOf, At, StoredLengthAt, BytesAt, AlignUp, Block.Stands;
    StoredParts(b, out, s, p);
    StoredLengthDecoded(s, p, |b.data|, b.nlen);
    BytesDecoded(b.data, s, AlignUp(p) + 32);
  }

  lemma AtTwo(s: seq<bool>, p: nat, a: seq<bool>, b: seq<bool>)
    requires At(s, p, a + b)
    ensures At(s, p, a) && At(s, p + |a|, b) && p + |a| + |b| <= |s|
  {
    AtConcat(s, p, a, b);
  }

  lemma DynamicParts(b: Block, out: seq<byte>, s: seq<bool>, p: nat)
    requires b.Dynamic? && b.Valid(out) && b.Stands(out, s, p)
    ensures At(s, p, b.header.Bits())
    ensures At(s, p + |b.header.Bits()|, BlockBits(b.header.Codes(), b.tokens))
    ensures b.End(out, p) == p + |b.header.Bits()| + |BlockBits(b.header.Codes(), b.tokens)| <= |s|
  {
    hide At, BlockBits, Header.Valid, Header.Codes, Header.Bits, Expands, AllEncodable;
    AtTwo(s, p, b.header.Bits(), BlockBits(b.header.Codes(), b.tokens));
  }

  lemma DynamicDecoded(b: Block, out: seq<byte>, s: seq<bool>, p: nat, maxOut: nat)
    requires b.Dynamic? && b.Valid(out) && b.Stands(out, s, p)
    ensures b.End(out, p) <= |s|
    ensures DynamicAt(s, p, out, maxOut) ==
            if |b.Output(out)| <= maxOut then Success((b.Output(out), b.End(out, p))) else Failure(TooBig)
  {
    hide At, BlockBits, CodedAt, CodesAt, DynamicAt, Header.Valid, Header.Codes, Header.Bits, Block.Stands, Codes.Valid;
    DynamicParts(b, out, s, p);
    HeaderDecoded(b.header, s, p);
    var p1 := p + |b.header.Bits()|;
    BlockDecoded(b.header.Codes(), b.tokens, out, s, p1, maxOut);
    DynamicIs(s, p, out, maxOut, b.header.Codes(), p1);
  }

  lemma DynamicIs(s: seq<bool>, p: nat, out: seq<byte>, maxOut: nat, c: Codes, p1: nat)
    requires p <= p1 <= |s| && CodesAt(s, p) == Success((c, p1))
    ensures DynamicAt(s, p, out, maxOut) == CodedAt(s, p1, c, out, maxOut)
  {
    hide CodesAt, CodedAt;
  }

  lemma FixedDecoded(b: Block, out: seq<byte>, s: seq<bool>, p: nat, maxOut: nat)
    requires b.Fixed? && b.Valid(out) && b.Stands(out, s, p)
    ensures b.End(out, p) <= |s|
    ensures CodedAt(s, p, FIXED, out, maxOut) ==
            if |b.Output(out)| <= maxOut then Success((b.Output(out), b.End(out, p))) else Failure(TooBig)
  {
    hide CodedAt, BlockBits, Expand, Expands, AllEncodable;
    FixedValid();
    BlockDecoded(FIXED, b.tokens, out, s, p, maxOut);
  }

  lemma OneBlockDecoded(b: Block, out: seq<byte>, s: seq<bool>, p: nat, maxOut: nat)
    requires b.Valid(out) && b.Stands(out, s, p)
    ensures p <= b.End(out, p) <= |s|
    ensures BlockAt(s, p, b.Type(), out, maxOut) ==
            if |b.Output(out)| <= maxOut then Success((b.Output(out), b.End(out, p))) else Failure(TooBig)
  {
    assert p <= b.End(out, p);
    hide StoredAt, CodedAt, DynamicAt, Block.Output, Block.Stands, Block.Valid, Block.End;
    match b
    case Stored(_, _) => StoredDecoded(b, out, s, p, maxOut);
    case Fixed(_) => FixedDecoded(b, out, s, p, maxOut);
    case Dynamic(_, _) => DynamicDecoded(b, out, s, p, maxOut);
  }

  lemma BlockHeaderDecoded(final: bool, t: nat, s: seq<bool>, p: nat)
    requires t < 4 && At(s, p, [final] + Lsb(t, 2))
    ensures ReadBitAt(s, p) == Success((final, p + 1))
    ensures ReadBitsAt(s, p + 1, 2) == Success((t, p + 3))
  {
    AtConcat(s, p, [final], Lsb(t, 2));
    assert s[p] == s[p..p + 1][0];
    assert Pow2(2) == 4;
    ExtraDecoded(s, p + 1, t, 2);
  }

  /** Every well-formed list of blocks decodes to its output, or is refused as too big. */
  lemma {:induction false} BlocksDecoded(blocks: seq<Block>, out: seq<byte>, s: seq<bool>, p: nat, maxOut: nat)
    requires BlocksValid(out, blocks) && BlocksStand(out, s, p, blocks)
    ensures p <= |s|
    ensures BlocksAt(s, p, out, maxOut) ==
            if |BlocksOutput(out, blocks)| <= maxOut
            then Success((BlocksOutput(out, blocks), BlocksEnd(out, p, blocks))) else Failure(TooBig)
    decreases |blocks|
  {
    hide Block.Valid, Block.Stands, Block.Output, Block.End, BlockAt, ReadBitAt, ReadBitsAt, Lsb;
    var b := blocks[0];
    BlockHeaderDecoded(|blocks| == 1, b.Type(), s, p);
    OneBlockDecoded(b, out, s, p + 3, maxOut);
    if |blocks| > 1 {
      BlocksDecoded(blocks[1..], b.Output(out), s, b.End(out, p + 3), maxOut);
    }
  }

  // ---- The zlib wrapping ----

  /**
   The two header bytes as section 2.2 of RFC 1950 has a writer lay them out: method
   8, a window of up to 32768 bytes, any level, no preset dictionary, and check bits
   that make the pair a multiple of 31.
   */
  predicate IsHeaderOf(z: seq<byte>, info: nat, level: nat, check: nat) {
    && |z| >= 2 && info <= 7 && level < 4 && check < 32
    && z[0] == 8 + 16 * info && z[1] == 64 * level + check
    && (z[0] as int * 256 + z[1]) % 31 == 0
  }

  ghost predicate IsHeader(z: seq<byte>) {
    exists info, level, check :: IsHeaderOf(z, info, level, check)
  }

  /** The inflater takes just these headers. */
  lemma HeaderTaken(z: seq<byte>)
    ensures CheckHeader(z).Success? <==> IsHeader(z)
    ensures IsHeader(z) ==> |z| >= 2
  {
    hide CheckHeader;
    if CheckHeader(z).Success? {
      TakenIsHeader(z);
    }
    if info, level, check :| IsHeaderOf(z, info, level, check) {
      HeaderOfTaken(z, info, level, check);
    }
  }

  lemma TakenIsHeader(z: seq<byte>)
    requires CheckHeader(z).Success?
    ensures IsHeaderOf(z, z[0] / 16, z[1] / 64, z[1] % 32)
  {
    ByteFields(z[0], z[1]);
  }

  lemma ByteFields(a: byte, b: byte)
    ensures a == a % 16 + 16 * (a / 16) && b == 64 * (b / 64) + 32 * (b / 32 % 2) + b % 32
    ensures b / 64 < 4 && b % 32 < 32
  {
    assert b / 64 == b / 32 / 2;
  }

  lemma HeaderOfTaken(z: seq<byte>, info: nat, level: nat, check: nat)
    requires IsHeaderOf(z, info, level, check)
    ensures CheckHeader(z).Success?
  {
    Fields(8, info, level, 0, check);
  }

  lemma Fields(cm: nat, info: nat, level: nat, dict: nat, check: nat)
    requires cm < 16 && dict < 2 && check < 32
    ensures (cm + 16 * info) % 16 == cm && (cm + 16 * info) / 16 == info
    ensures (64 * level + 32 * dict + check) / 32 % 2 == dict
  {
    assert (64 * level + 32 * dict + check) / 32 == 2 * level + dict;
  }

  /** What a payload is refused with for its header, the first thing wrong first. */
  lemma HeaderRefused(
    z: seq<byte>, maxOut: nat, cm: nat, info: nat, level: nat, dict: nat, check: nat)
    requires cm < 16 && dict < 2 && check < 32
    requires |z| >= 1 ==> z[0] == cm + 16 * info
    requires |z| >= 2 ==> z[1] == 64 * level + 32 * dict + check
    ensures z == [] ==> Inflate(z, maxOut) == Failure(EndOfData)
    ensures |z| >= 1 && cm != 8 ==> Inflate(z, maxOut) == Failure(InvalidCm)
    ensures |z| >= 1 && cm == 8 && info > 7 ==> Inflate(z, maxOut) == Failure(InvalidCinfo)
    ensures |z| == 1 && cm == 8 && info <= 7 ==> Inflate(z, maxOut) == Failure(EndOfData)
    ensures |z| >= 2 && cm == 8 && info <= 7 && (z[0] as int * 256 + z[1]) % 31 != 0 ==>
              Inflate(z, maxOut) == Failure(HeaderChecksum)
    ensures |z| >= 2 && cm == 8 && info <= 7 && (z[0] as int * 256 + z[1]) % 31 == 0 && dict == 1 ==>
              Inflate(z, maxOut) == Failure(PresetDictionary)
  {
    hide Inflate, CheckHeader;
    FirstWrong(z, cm, info, level, dict, check);
    RefusedAtOnce(z, maxOut);
  }

  lemma FirstWrong(z: seq<byte>, cm: nat, info: nat, level: nat, dict: nat, check: nat)
    requires cm < 16 && dict < 2 && check < 32
    requires |z| >= 1 ==> z[0] == cm + 16 * info
    requires |z| >= 2 ==> z[1] == 64 * level + 32 * dict + check
    ensures CheckHeader(z) ==
            if |z| < 1 then Failure(EndOfData)
            else if cm != 8 then Failure(InvalidCm)
            else if info > 7 then Failure(InvalidCinfo)
            else if |z| < 2 then Failure(EndOfData)
            else if (z[0] as int * 256 + z[1]) % 31 != 0 then Failure(HeaderChecksum)
            else if dict == 1 then Failure(PresetDictionary)
            else Success(())
  {
    Fields(cm, info, level, dict, check);
  }

  lemma RefusedAtOnce(z: seq<byte>, maxOut: nat)
    ensures CheckHeader(z).Failure? ==> Inflate(z, maxOut) == Failure(CheckHeader(z).error)
  {
    hide BlocksAt, BitsOf, ReadBytesAt, SwapBytes, Adler32, CheckHeader;
  }

  /** `z` is a zlib stream for `data`: header, blocks from bit 16 on, and the checksum at the next byte. */
  ghost predicate IsZlib(z: seq<byte>, data: seq<byte>) {
    && IsHeader(z)
    && exists blocks :: IsZlibOf(z, data, blocks)
  }

  predicate IsZlibOf(z: seq<byte>, data: seq<byte>, blocks: seq<Block>) {
    && BlocksValid([], blocks) && BlocksOutput([], blocks) == data
    && BlocksStand([], BitsOf(z), 16, blocks)
    && At(BitsOf(z), AlignUp(BlocksEnd([], 16, blocks)), BitsOf(BigEndian(Adler32(data))))
  }

  lemma BytesOfSum(sum: nat)
    requires sum < 0x1_0000_0000
    ensures var b := BigEndian(sum);
            && b == [b[0], b[1], b[2], b[3]]
            && sum == b[3] as int + b[2] as int * 0x100 + b[1] as int * 0x1_0000 + b[0] as int * 0x100_0000
  {
    Digits(sum);
  }

  lemma FourBytesRead(s: seq<bool>, p: nat, bytes: seq<byte>)
    requires |bytes| == 4 && At(s, AlignUp(p), BitsOf(bytes))
    ensures ReadBytesAt(s, p, 4) == Success((Val(BitsOf(bytes)), AlignUp(p) + 32))
  {
    hide BitsOf, Val, AlignUp;
  }

  lemma SwappedSum(sum: nat)
    requires sum < 0x1_0000_0000
    ensures SwapBytes(Val(BitsOf(BigEndian(sum)))) == sum
  {
    hide BigEndian, SwapBytes, BitsOf, Val;
    BytesOfSum(sum);
    var b := BigEndian(sum);
    FourBytes(b[0], b[1], b[2], b[3]);
    Swapped(b[0], b[1], b[2], b[3]);
  }

  lemma TrailerDecoded(s: seq<bool>, p: nat, sum: nat)
    requires sum < 0x1_0000_0000 && At(s, AlignUp(p), BitsOf(BigEndian(sum)))
    ensures ReadBytesAt(s, p, 4).Success? && SwapBytes(ReadBytesAt(s, p, 4).value.0) == sum
  {
    hide BigEndian, SwapBytes, BitsOf, Val, ReadBytesAt, At, AlignUp;
    SwappedSum(sum);
    FourBytesRead(s, p, BigEndian(sum));
  }

  lemma Swapped(a: nat, b: nat, c: nat, d: nat)
    requires a < 256 && b < 256 && c < 256 && d < 256
    ensures SwapBytes(a + b * 0x100 + c * 0x1_0000 + d * 0x100_0000)
         == d + c * 0x100 + b * 0x1_0000 + a * 0x100_0000
  {
    var v := a + b * 0x100 + c * 0x1_0000 + d * 0x100_0000;
    assert v == a + 0x100 * (b + c * 0x100 + d * 0x1_0000);
    assert v == (a + b * 0x100) + 0x1_0000 * (c + d * 0x100);
    assert v == (a + b * 0x100 + c * 0x1_0000) + 0x100_0000 * d;
    LowDigit(a, b + c * 0x100 + d * 0x1_0000);
    LowDigit(b, c + d * 0x100);
    LowDigit(c, d);
    LowDigits(a + b * 0x100, c + d * 0x100);
    LowThree(a + b * 0x100 + c * 0x1_0000, d);
  }

  lemma LowDigit(r: nat, q: nat)
    requires r < 0x100
    ensures (r + 0x100 * q) / 0x100 == q && (r + 0x100 * q) % 0x100 == r
  {
  }

  lemma LowDigits(r: nat, q: nat)
    requires r < 0x1_0000
    ensures (r + 0x1_0000 * q) / 0x1_0000 == q
  {
  }

  lemma LowThree(r: nat, q: nat)
    requires r < 0x100_0000
    ensures (r + 0x100_0000 * q) / 0x100_0000 == q
  {
  }

  lemma Digits(v: nat)
    requires v < 0x1_0000_0000
    ensures v == v % 0x100 + v / 0x100 % 0x100 * 0x100 + v / 0x1_0000 % 0x100 * 0x1_0000
               + v / 0x100_0000 % 0x100 * 0x100_0000
  {
    assert v / 0x1_0000 == v / 0x100 / 0x100 && v / 0x100_0000 == v / 0x1_0000 / 0x100;
  }

  lemma FourBytes(a: byte, b: byte, c: byte, d: byte)
    ensures Val(BitsOf([a, b, c, d])) == a as int + b * 0x100 + c * 0x1_0000 + d * 0x100_0000
  {
    assert Pow2(8) == 256;
    Pow2Add(8, 8);
    Pow2Add(8, 16);
    assert BitsOf([]) == [] && Val([]) == 0;
    hide Pow2, Val, BitsOf, Lsb;
    ByteAppended([], a);
    ByteAppended([a], b);
    ByteAppended([a, b], c);
    ByteAppended([a, b, c], d);
    assert [] + [a] == [a] && [a] + [b] == [a, b] && [a, b] + [c] == [a, b, c] && [a, b, c] + [d] == [a, b, c, d];
  }

  lemma ByteAppended(bytes: seq<byte>, v: byte)
    ensures Val(BitsOf(bytes + [v])) == Val(BitsOf(bytes)) + v * Pow2(8 * |bytes|)
  {
    BitsOfSnoc(bytes, v);
    ValAppendByte(BitsOf(bytes), Lsb(v, 8), v);
  }

  /** The inflater takes every zlib stream to the bytes it stands for, within the ceiling. */
  lemma InflatesEveryStream(z: seq<byte>, data: seq<byte>, maxOut: nat)
    requires IsZlib(z, data)
    ensures Inflate(z, maxOut) == if |data| <= maxOut then Success(data) else Failure(TooBig)
  {
    HeaderTaken(z);
    var blocks :| IsZlibOf(z, data, blocks);
    BlocksDecoded(blocks, [], BitsOf(z), 16, maxOut);
    hide IsHeader, CheckHeader, BlocksAt, BlocksOutput, BlocksEnd, BlocksStand, BlocksValid;
    hide ReadBytesAt, BitsOf, SwapBytes, Adler32;
    if |data| <= maxOut {
      TrailerDecoded(BitsOf(z), BlocksEnd([], 16, blocks), Adler32(data));
    }
  }

  /** Blocks that stand under any other sum than that of what they stand for are refused for it. */
  lemma WrongSumRefused(z: seq<byte>, blocks: seq<Block>, sum: nat, maxOut: nat)
    requires IsHeader(z) && BlocksValid([], blocks) && BlocksStand([], BitsOf(z), 16, blocks)
    requires sum < 0x1_0000_0000 && At(BitsOf(z), AlignUp(BlocksEnd([], 16, blocks)), BitsOf(BigEndian(sum)))
    requires |BlocksOutput([], blocks)| <= maxOut && sum != Adler32(BlocksOutput([], blocks))
    ensures Inflate(z, maxOut) == Failure(AdlerMismatch)
  {
    HeaderTaken(z);
    BlocksDecoded(blocks, [], BitsOf(z), 16, maxOut);
    hide IsHeader, CheckHeader, BlocksAt, BlocksOutput, BlocksEnd, BlocksStand, BlocksValid;
    hide ReadBytesAt, BitsOf, SwapBytes, Adler32;
    TrailerDecoded(BitsOf(z), BlocksEnd([], 16, blocks), sum);
  }

  // ---- Strict streams ----

  // What the RFCs ask beyond this and the inflater does not check: the stored length's
  // complement is one, there are at most 286 literal and length codes, no distance is
  // longer than the window the header names, and a length of 258 has its own symbol.

  /** The pair reaches no further back than the window, and symbol 284 does not stand for 258. */
  predicate Tame(t: Token, window: nat) {
    t.Pair? ==> t.Valid() && t.Distance() <= window && (t.length == 27 ==> t.Length() < 258)
  }

  predicate AllTame(tokens: seq<Token>, window: nat) {
    forall i :: 0 <= i < |tokens| ==> Tame(tokens[i], window)
  }

  predicate StrictBlock(b: Block, window: nat) {
    match b
    case Stored(nlen, data) => nlen + |data| == 65535
    case Fixed(tokens) => AllTame(tokens, window)
    case Dynamic(h, tokens) => h.hlit <= 286 && AllTame(tokens, window)
  }

  predicate AllStrict(blocks: seq<Block>, window: nat) {
    forall i :: 0 <= i < |blocks| ==> StrictBlock(blocks[i], window)
  }

  /** The window the first header byte names (section 2.2 of RFC 1950). */
  function Window(z: seq<byte>): nat
    requires z != []
  {
    Pow2(z[0] / 16 + 8)
  }

  ghost predicate IsStrictZlib(z: seq<byte>, data: seq<byte>) {
    && IsHeader(z)
    && exists blocks :: IsZlibOf(z, data, blocks) && AllStrict(blocks, Window(z))
  }

  lemma StrictIsZlib(z: seq<byte>, data: seq<byte>)
    requires IsStrictZlib(z, data)
    ensures IsZlib(z, data)
  {
    hide IsZlibOf, IsHeader, AllStrict;
  }
}
