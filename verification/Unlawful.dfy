/**
 Two payloads the inflater accepts. One is no zlib stream for any bytes: in its one
 dynamic block the last run of code lengths goes past the last length. The other is
 no strict one: the complement beside a stored length is wrong.
 */
module Unlawful {
  import opened Wrappers
  import opened Bits
  import opened Canonical
  import opened Format
  import opened BitIO
  import opened InflateSpec
  import opened Symbols
  import opened Headers
  import opened Streams
  import opened Converse
  import opened Strict

  // ---- The payload ----

  /** Code lengths for three symbols of the code length alphabet: the length 1 and two runs of zeros. */
  const CLENS: seq<nat> := [0, 2] + Runs(15, 0) + [2, 1]

  /** 256 zeros, a 1 for the end mark, and three zeros where there is room for one. */
  const RUNS: seq<Run> := [ManyZeros(127), ManyZeros(107), Run.Length(1), Zeros(0)]

  const READ := Codes(Runs(256, 0) + [1], Runs(3, 0))

  /** 257 literal/length codes, one distance code, and 18 code lengths for them. */
  function CountBits(): seq<bool> {
    Lsb(0, 5) + (Lsb(0, 5) + Lsb(14, 4))
  }

  /** The final block: its mark and type, its header, its end mark at once. */
  function FinalBlock(): seq<bool>
    requires AllRunsCoded(CLENS, RUNS)
  {
    ([true] + Lsb(2, 2)) + (CountBits() + (ClensBits(CLENS, 18) + (RunsBits(CLENS, RUNS) + CodeBits(READ.literal, 256))))
  }

  function ByteOf(bits: seq<bool>): byte
    requires |bits| == 8
  {
    Pow2OfBytes();
    Val(bits)
  }

  /** Whole bytes of bits. */
  function Packed(bits: seq<bool>): (r: seq<byte>)
    requires |bits| % 8 == 0
    ensures 8 * |r| == |bits|
  {
    if bits == [] then [] else Packed(bits[..|bits| - 8]) + [ByteOf(bits[|bits| - 8..])]
  }

  lemma ByteOfBits(bits: seq<bool>)
    requires |bits| == 8
    ensures Lsb(ByteOf(bits), 8) == bits
  {
    LsbVal(bits);
    hide Val, Lsb, Pow2;
  }

  lemma {:induction false} BitsOfPacked(bits: seq<bool>)
    requires |bits| % 8 == 0
    ensures BitsOf(Packed(bits)) == bits
  {
    if bits != [] {
      var n := |bits| - 8;
      hide ByteOf, Lsb, BitsOf;
      BitsOfPacked(bits[..n]);
      ByteOfBits(bits[n..]);
      BitsOfSnoc(Packed(bits[..n]), ByteOf(bits[n..]));
    }
  }

  // ---- Its code lengths ----

  lemma {:induction false} ZerosShareNothing(bl: seq<nat>, n: nat, max: nat)
    ensures Kraft(bl + Runs(n, 0), max) == Kraft(bl, max)
  {
    if n == 0 {
      assert bl + Runs(0, 0) == bl;
    } else {
      ZerosShareNothing(bl, n - 1, max);
      assert (bl + Runs(n, 0))[..|bl| + n - 1] == bl + Runs(n - 1, 0);
    }
  }

  lemma KraftOfSnoc(bl: seq<nat>, l: nat, max: nat)
    ensures Kraft(bl + [l], max) == Kraft(bl, max) + Share(l, max)
  {
    assert (bl + [l])[..|bl|] == bl;
  }

  lemma ClensSubscribed()
    ensures |CLENS| == 19 && Subscribed(CLENS, 7)
  {
    hide Kraft, Share;
    KraftOfSnoc([], 0, 7);
    KraftOfSnoc([0], 2, 7);
    ZerosShareNothing([0, 2], 15, 7);
    KraftOfSnoc([0, 2] + Runs(15, 0), 2, 7);
    KraftOfSnoc([0, 2] + Runs(15, 0) + [2], 1, 7);
    assert [] + [0] == [0] && [0] + [2] == [0, 2];
    assert CLENS == [0, 2] + Runs(15, 0) + [2] + [1];
    Shares();
  }

  lemma Shares()
    ensures Kraft([], 7) == Kraft([], 15) == 0
    ensures Share(0, 7) == Share(0, 15) == 0 && Share(2, 7) == 32 && Share(1, 7) == 64 && Pow2(7) == 128
    ensures Share(1, 15) <= Pow2(15)
  {
  }

  lemma ReadValid()
    ensures READ.Valid()
  {
    hide Kraft, Share;
    ZerosShareNothing([], 256, 15);
    ZerosShareNothing([], 3, 15);
    KraftOfSnoc(Runs(256, 0), 1, 15);
    assert [] + Runs(256, 0) == Runs(256, 0) && [] + Runs(3, 0) == Runs(3, 0);
    Shares();
  }

  lemma RunsRead()
    ensures AllRunsCoded(CLENS, RUNS) && RunsApply([], RUNS)
    ensures ApplyRuns([], RUNS) == Runs(256, 0) + [1] + Runs(3, 0)
    ensures Fills([], RUNS, 258)
  {
    var b1, b2, b3 := Runs(138, 0), Runs(256, 0), Runs(256, 0) + [1];
    assert ApplyRun([], RUNS[0]) == b1 && ApplyRun(b1, RUNS[1]) == b2 && ApplyRun(b2, RUNS[2]) == b3;
    assert RUNS[1..][0] == RUNS[1] && RUNS[1..][1..] == RUNS[2..];
    assert RUNS[2..][0] == RUNS[2] && RUNS[2..][1..] == RUNS[3..];
    assert RUNS[3..][0] == RUNS[3] && RUNS[3..][1..] == [];
    hide Runs;
  }

  // ---- How it is read ----

  lemma PartsStand(s: seq<bool>, p: nat)
    requires AllRunsCoded(CLENS, RUNS) && At(s, p, FinalBlock())
    ensures At(s, p, [true] + Lsb(2, 2)) && At(s, p + 3, CountBits()) && At(s, p + 17, ClensBits(CLENS, 18))
    ensures At(s, p + 71, RunsBits(CLENS, RUNS))
    ensures At(s, p + 71 + |RunsBits(CLENS, RUNS)|, CodeBits(READ.literal, 256))
  {
    hide At, ClensBits, RunsBits, CodeBits, Lsb;
    var end := CodeBits(READ.literal, 256);
    AtConcat(s, p, [true] + Lsb(2, 2), CountBits() + (ClensBits(CLENS, 18) + (RunsBits(CLENS, RUNS) + end)));
    AtConcat(s, p + 3, CountBits(), ClensBits(CLENS, 18) + (RunsBits(CLENS, RUNS) + end));
    AtConcat(s, p + 17, ClensBits(CLENS, 18), RunsBits(CLENS, RUNS) + end);
    AtConcat(s, p + 71, RunsBits(CLENS, RUNS), end);
  }

  lemma CountsAre(s: seq<bool>, p: nat)
    requires At(s, p, CountBits())
    ensures CountsAt(s, p) == Success((257, 1, 18, p + 14))
  {
    hide Lsb, Pow2, Val, At;
    SmallPowers(5);
    SmallPowers(4);
    AtConcat(s, p, Lsb(0, 5), Lsb(0, 5) + Lsb(14, 4));
    AtConcat(s, p + 5, Lsb(0, 5), Lsb(14, 4));
    ExtraDecoded(s, p, 0, 5);
    ExtraDecoded(s, p + 5, 0, 5);
    ExtraDecoded(s, p + 10, 14, 4);
  }

  lemma ClensAre(s: seq<bool>, p: nat)
    requires At(s, p, ClensBits(CLENS, 18))
    ensures ClensAt(s, p, 18) == Success((CLENS, p + 54))
  {
    ClensSubscribed();
    ClensDecoded(CLENS, s, p, 18);
    forall i | 0 <= i < 19
      ensures Sent(CLENS, 18)[i] == CLENS[i]
    {
      OrderIsPermutation(i);
      assert POSITION[i] == 18 ==> i == 15;
    }
    assert Sent(CLENS, 18) == CLENS;
  }

  /** The inflater takes three distance codes though one was announced. */
  lemma CodesAre(s: seq<bool>, p: nat)
    requires AllRunsCoded(CLENS, RUNS) && At(s, p, CountBits())
    requires At(s, p + 14, ClensBits(CLENS, 18)) && At(s, p + 68, RunsBits(CLENS, RUNS))
    ensures p + 68 + |RunsBits(CLENS, RUNS)| <= |s|
    ensures CodesAt(s, p) == Success((READ, p + 68 + |RunsBits(CLENS, RUNS)|)) && !Lawful(s, p)
  {
    hide Tree, At, CountsAt, ClensAt, LengthsAt, RunsBits, Kraft, ApplyRuns, RunsApply, Fills;
    CountsAre(s, p);
    ClensAre(s, p + 14);
    ClensSubscribed();
    TreeProper(CLENS, Alphabet(19));
    RunsRead();
    AtFits(s, p + 68, RunsBits(CLENS, RUNS));
    RunsDecoded(CLENS, RUNS, [], s, p + 68, 258);
    var bl := Runs(256, 0) + [1] + Runs(3, 0);
    assert bl[..257] == READ.literal && bl[257..] == READ.distance;
  }

  lemma BlockIsRead(s: seq<bool>, p: nat, maxOut: nat)
    requires AllRunsCoded(CLENS, RUNS) && At(s, p, FinalBlock())
    ensures p + |FinalBlock()| <= |s|
    ensures BlocksAt(s, p, [], maxOut) == Success(([], p + |FinalBlock()|)) && !AllLawful(s, p, [], maxOut)
  {
    hide At, ClensBits, RunsBits, CodeBits, Lsb, CodesAt, CodedAt, Lawful, ReadBitAt, ReadBitsAt;
    AtFits(s, p, FinalBlock());
    PartsStand(s, p);
    BlockHeaderDecoded(true, 2, s, p);
    CodesAre(s, p + 3);
    ReadValid();
    EndStep(READ, [], s, p + 71 + |RunsBits(CLENS, RUNS)|, maxOut);
  }

  // ---- Accepted, and no stream ----

  /** The two header bytes, the block and the checksum of nothing. */
  ghost predicate IsPayload(z: seq<byte>) {
    && AllRunsCoded(CLENS, RUNS) && IsHeader(z) && At(BitsOf(z), 16, FinalBlock())
    && At(BitsOf(z), AlignUp(16 + |FinalBlock()|), BitsOf(BigEndian(1)))
  }

  lemma Payload() returns (z: seq<byte>)
    ensures IsPayload(z)
  {
    hide BitsOf, At, FinalBlock, AllRunsCoded, Packed, IsHeader, BigEndian;
    RunsRead();
    var pad := seq(AlignUp(|FinalBlock()|) - |FinalBlock()|, _ => false);
    z := Wrapped(FinalBlock() + pad);
    WrappedIs(FinalBlock() + pad);
    ThreeStand(BitsOf(HEADER), FinalBlock(), pad, BitsOf(BigEndian(1)));
  }

  const HEADER: seq<byte> := [0x78, 0x9c]

  /** These bits between a header and the checksum of nothing. */
  function Wrapped(bits: seq<bool>): seq<byte>
    requires |bits| % 8 == 0
  {
    HEADER + (Packed(bits) + BigEndian(1))
  }

  lemma WrappedIs(bits: seq<bool>)
    requires |bits| % 8 == 0
    ensures IsHeader(Wrapped(bits))
    ensures BitsOf(Wrapped(bits)) == BitsOf(HEADER) + (bits + BitsOf(BigEndian(1)))
  {
    assert IsHeaderOf(Wrapped(bits), 7, 2, 28);
    hide BitsOf, Packed, BigEndian;
    BitsOfPacked(bits);
    BitsOfConcat(HEADER, Packed(bits) + BigEndian(1));
    BitsOfConcat(Packed(bits), BigEndian(1));
  }

  lemma ThreeStand(a: seq<bool>, b: seq<bool>, c: seq<bool>, d: seq<bool>)
    ensures At(a + ((b + c) + d), |a|, b) && At(a + ((b + c) + d), |a| + |b| + |c|, d)
  {
  }

  lemma AcceptedAs(z: seq<byte>, maxOut: nat)
    requires IsPayload(z)
    ensures Inflate(z, maxOut) == Success([]) && !LawfulPayload(z, maxOut)
  {
    hide At, BitsOf, FinalBlock, AllRunsCoded, BlocksAt, AllLawful, ReadBytesAt, SwapBytes, BigEndian, CheckHeader, IsHeader;
    HeaderTaken(z);
    BlockIsRead(BitsOf(z), 16, maxOut);
    TrailerDecoded(BitsOf(z), 16 + |FinalBlock()|, 1);
  }

  /** Every ceiling lets it through, for no bytes at all. */
  ghost predicate TakenForNothing(z: seq<byte>) {
    forall m: nat :: Inflate(z, m) == Success([])
  }

  lemma NoStream(z: seq<byte>, data: seq<byte>)
    requires IsPayload(z)
    ensures !IsZlib(z, data)
  {
    hide IsPayload, Inflate, IsZlib, LawfulPayload;
    AcceptedAs(z, |data|);
    InflatesExactlyTheStreams(z, data, |data|);
  }

  /** The payload is taken, though it is a stream for no bytes and for no others. */
  lemma AcceptedThoughNoStream()
    ensures exists z :: TakenForNothing(z) && forall data :: !IsZlib(z, data)
  {
    hide IsPayload, Inflate, IsZlib;
    var z := Payload();
    forall m: nat
      ensures Inflate(z, m) == Success([])
    {
      AcceptedAs(z, m);
    }
    forall data
      ensures !IsZlib(z, data)
    {
      NoStream(z, data);
    }
    assert TakenForNothing(z);
  }

  // ---- A wrong complement ----

  /** A final stored block of no bytes, with zero where the complement of its length belongs. */
  const STORED: seq<bool> := ([true] + Lsb(0, 2)) + (Lsb(0, 5) + (Lsb(0, 16) + (Lsb(0, 16) + BitsOf([]))))

  lemma StoredPayload() returns (z: seq<byte>)
    ensures IsHeader(z) && |BitsOf(z)| == 88
    ensures At(BitsOf(z), 16, [true] + Lsb(0, 2)) && At(BitsOf(z), 24, Lsb(0, 16) + (Lsb(0, 16) + BitsOf([])))
    ensures At(BitsOf(z), 56, BitsOf(BigEndian(1)))
  {
    hide BitsOf, At, Lsb, IsHeader, BigEndian;
    z := Wrapped(STORED);
    WrappedIs(STORED);
    hide Wrapped;
    var mark, rest := [true] + Lsb(0, 2), Lsb(0, 16) + (Lsb(0, 16) + BitsOf([]));
    FourThere(BitsOf(z), BitsOf(HEADER), mark, Lsb(0, 5), rest, BitsOf(BigEndian(1)));
  }

  lemma FourThere(s: seq<bool>, a: seq<bool>, b: seq<bool>, c: seq<bool>, d: seq<bool>, e: seq<bool>)
    requires s == a + ((b + (c + d)) + e)
    ensures At(s, |a|, b) && At(s, |a| + |b| + |c|, d) && At(s, |a| + |b| + |c| + |d|, e)
    ensures |s| == |a| + |b| + |c| + |d| + |e|
  {
  }

  lemma StoredIsZlib(z: seq<byte>)
    requires IsHeader(z) && |BitsOf(z)| == 88
    requires At(BitsOf(z), 16, [true] + Lsb(0, 2)) && At(BitsOf(z), 24, Lsb(0, 16) + (Lsb(0, 16) + BitsOf([])))
    requires At(BitsOf(z), 56, BitsOf(BigEndian(1)))
    ensures IsZlibOf(z, [], [Stored(0, [])])
  {
    hide BitsOf, At, Lsb, BigEndian;
    var blocks := [Stored(0, [])];
    assert blocks[0].Valid([]) && blocks[0].Output([]) == [] && blocks[0].End([], 19) == 56;
  }

  /** The inflater takes a stream whose stored length has a wrong complement. */
  lemma AcceptedThoughNotStrict()
    ensures exists z :: TakenForNothing(z) && !IsStrictZlib(z, [])
  {
    hide BitsOf, At, Lsb, BigEndian, Inflate, IsStrictZlib, LawfulPayload, AllStrictAt, BlocksAt;
    var z := StoredPayload();
    StoredIsZlib(z);
    assert IsZlib(z, []);
    forall m: nat
      ensures Inflate(z, m) == Success([])
    {
      InflatesEveryStream(z, [], m);
    }
    var blocks := [Stored(0, [])];
    BlocksDecoded(blocks, [], BitsOf(z), 16, 0);
    StrictIff(blocks, [], BitsOf(z), 16, 0, Window(z));
    assert !StrictBlock(blocks[0], Window(z));
    StrictExactlyWhen(z, [], 0);
    assert TakenForNothing(z);
  }
}
