/**
 A zlib payload byte by byte, and the tables of RFC 1951 in numbers.
 */
module Vectors {
  import opened Basics
  import opened Wrappers
  import opened Bits
  import opened ZlibErrors
  import opened Canonical
  import opened Format
  import opened BitIO
  import opened InflateSpec
  import opened FixedCodes
  import opened Headers
  import opened Streams

  /** The letter a, as another encoder writes it. */
  const LETTER: seq<byte> := [0x78, 0x9c, 0x4b, 0x04, 0x00, 0x00, 0x62, 0x00, 0x62]

  const MARK: seq<bool> := [true, true, false]
  const CODE: seq<bool> := [true, false, false, true, false, false, false, true]
  const END: seq<bool> := [false, false, false, false, false, false, false]

  lemma NextBit(v: nat, bit: bool, rest: nat, n: nat)
    requires v == if bit then 2 * rest + 1 else 2 * rest
    ensures Lsb(v, n + 1) == [bit] + Lsb(rest, n)
  {
  }

  lemma NextTwo(v: nat, a: bool, b: bool, rest: nat, n: nat)
    requires v == (if a then 1 else 0) + (if b then 2 else 0) + 4 * rest
    ensures Lsb(v, n + 2) == [a, b] + Lsb(rest, n)
  {
    var x := if b then 2 * rest + 1 else 2 * rest;
    NextBit(x, b, rest, n);
    NextBit(v, a, x, n + 1);
    Onto([a], [b], Lsb(rest, n));
    hide Lsb;
  }

  lemma Onto(a: seq<bool>, b: seq<bool>, rest: seq<bool>)
    ensures a + (b + rest) == (a + b) + rest
  {
  }

  /** Four bits are one hexadecimal digit. */
  lemma NextFour(v: nat, a: bool, b: bool, c: bool, d: bool, rest: nat, n: nat)
    requires v == (if a then 1 else 0) + (if b then 2 else 0) + (if c then 4 else 0) + (if d then 8 else 0) + 16 * rest
    ensures Lsb(v, n + 4) == [a, b, c, d] + Lsb(rest, n)
  {
    var y := (if c then 1 else 0) + (if d then 2 else 0) + 4 * rest;
    NextTwo(y, c, d, rest, n);
    NextTwo(v, a, b, y, n + 2);
    Onto([a, b], [c, d], Lsb(rest, n));
    hide Lsb;
  }

  lemma Bits4b()
    ensures Lsb(0x4b, 8) == [true, true, false, true] + [false, false, true, false]
  {
    NextFour(0x4b, true, true, false, true, 4, 4);
    NextFour(4, false, false, true, false, 0, 0);
    NoLsb();
    hide Lsb;
  }

  lemma Bits04()
    ensures Lsb(0x04, 8) == [false, false, true, false] + [false, false, false, false]
  {
    NextFour(0x04, false, false, true, false, 0, 4);
    NextFour(0, false, false, false, false, 0, 0);
    NoLsb();
    hide Lsb;
  }

  lemma Zeros()
    ensures Lsb(0, 8) == [false, false] + Lsb(0, 6)
  {
    NextTwo(0, false, false, 0, 6);
    hide Lsb;
  }

  lemma ThreeBytes()
    ensures Lsb(0x4b, 8) + (Lsb(0x04, 8) + Lsb(0, 8)) == MARK + ((CODE + END) + Lsb(0, 6))
  {
    Bits4b();
    Bits04();
    Zeros();
    Joined(Lsb(0, 6));
    hide Lsb;
  }

  lemma Joined(end: seq<bool>)
    ensures ([true, true, false, true] + [false, false, true, false])
            + (([false, false, true, false] + [false, false, false, false]) + ([false, false] + end))
         == MARK + ((CODE + END) + end)
  {
  }

  lemma NoLsb()
    ensures forall v: nat :: Lsb(v, 0) == []
  {
  }

  lemma LetterParts()
    ensures At(BitsOf(LETTER), 16, MARK) && At(BitsOf(LETTER), 19, CODE + END)
    ensures At(BitsOf(LETTER), 40, BitsOf([0x00, 0x62, 0x00, 0x62]))
  {
    hide BitsOf, Lsb, At;
    var s := BitsOf(LETTER);
    Stands(LETTER, 2, 5);
    Stands(LETTER, 5, 9);
    ThreeOf(0x4b, 0x04, 0);
    assert LETTER[2..5] == [0x4b, 0x04, 0] && LETTER[5..9] == [0x00, 0x62, 0x00, 0x62];
    ThreeBytes();
    AtConcat(s, 16, MARK, (CODE + END) + Lsb(0, 6));
    AtConcat(s, 19, CODE + END, Lsb(0, 6));
  }

  lemma Stands(bytes: seq<byte>, a: nat, b: nat)
    requires a <= b <= |bytes|
    ensures At(BitsOf(bytes), 8 * a, BitsOf(bytes[a..b]))
  {
    BitsOfSlice(bytes, a, b);
    hide BitsOf;
    AtSlice(BitsOf(bytes), 8 * a, 8 * b);
  }

  lemma AtSlice(s: seq<bool>, p: nat, q: nat)
    requires p <= q <= |s|
    ensures At(s, p, s[p..q])
  {
  }

  lemma ThreeOf(a: byte, b: byte, c: byte)
    ensures BitsOf([a, b, c]) == Lsb(a, 8) + (Lsb(b, 8) + Lsb(c, 8))
  {
    hide Lsb, BitsOf;
    BitsOfSnoc([], a);
    BitsOfSnoc([a], b);
    BitsOfSnoc([a, b], c);
    NoBits();
    assert [] + [a] == [a] && [a] + [b] == [a, b] && [a, b] + [c] == [a, b, c];
    Associative(Lsb(a, 8), Lsb(b, 8), Lsb(c, 8));
    assert [] + Lsb(a, 8) == Lsb(a, 8);
  }

  lemma NoBits()
    ensures BitsOf([]) == []
  {
  }

  lemma LetterCodes()
    ensures FIXED.Valid() && AllEncodable(FIXED, [Literal(97)]) && BlockBits(FIXED, [Literal(97)]) == CODE + END
  {
    FixedValid();
    FixedLength(97);
    FixedLength(256);
    FixedCodeIsCanonical(97);
    FixedCodeIsCanonical(256);
    LetterMsb();
    hide Runs, Code, Msb, CodeBits, Codes.Valid, Kraft;
    var none: seq<Token> := [];
    assert [Literal(97)][1..] == none;
    assert TokensBits(FIXED, none) == [];
    assert TokensBits(FIXED, [Literal(97)]) == CODE + [];
    assert CODE + [] == CODE;
  }

  lemma LetterMsb()
    ensures Msb(0x91, 8) == CODE && Msb(0, 7) == END
  {
  }

  /** The payload is taken for that letter, byte for byte. */
  lemma OneLetter(maxOut: nat)
    ensures Inflate(LETTER, maxOut) == if maxOut >= 1 then Success([97]) else Failure(TooBig)
  {
    LetterIsZlib();
    InflatesEveryStream(LETTER, [97], maxOut);
    hide Inflate;
  }

  lemma LetterIsZlib()
    ensures IsZlib(LETTER, [97])
  {
    LetterParts();
    LetterCodes();
    LetterSum();
    hide BitsOf, At, BlockBits, Adler32, BigEndian, AllEncodable, Codes.Valid;
    var blocks := [Fixed([Literal(97)])];
    assert Lsb(1, 2) == [true, false];
    assert [true] + [true, false] == MARK;
    assert blocks[0].Valid([]) && blocks[0].Output([]) == [97] && blocks[0].End([], 19) == 34;
    assert IsHeaderOf(LETTER, 7, 2, 28);
    assert IsZlibOf(LETTER, [97], blocks);
  }

  lemma LetterSum()
    ensures BigEndian(Adler32([97])) == [0x00, 0x62, 0x00, 0x62]
  {
    SumsOfLetter();
    hide S1, S2;
    BytesOfLetter();
    hide BigEndian;
  }

  lemma SumsOfLetter()
    ensures S1([97]) == 98 && S2([97]) == 98
  {
    assert [97][..0] == [];
    assert S1([]) == 1 && S2([]) == 0;
    assert S1([97]) == 98;
  }

  lemma BytesOfLetter()
    ensures BigEndian(98 * 65536 + 98) == [0x00, 0x62, 0x00, 0x62]
  {
  }

  // ---- The checksum ----

  function Total(data: seq<byte>): nat {
    if data == [] then 0 else data[0] + Total(data[1..])
  }

  /** Each byte as often as there are bytes from it on. */
  function Weighted(data: seq<byte>): nat {
    if data == [] then 0 else |data| * data[0] + Weighted(data[1..])
  }

  lemma {:induction false} SumsOf(a: byte, rest: seq<byte>)
    ensures S1([a] + rest) == S1(rest) + a
    ensures S2([a] + rest) == S2(rest) + 1 + (|rest| + 1) * a
  {
    if rest == [] {
      assert [a] + rest == [a] && [a][..0] == [];
    } else {
      var n := |rest| - 1;
      SumsOf(a, rest[..n]);
      assert ([a] + rest)[..n + 1] == [a] + rest[..n];
      assert (n + 2) * a == (n + 1) * a + a;
    }
  }

  lemma {:induction false} Sums(data: seq<byte>)
    ensures S1(data) == 1 + Total(data) && S2(data) == |data| + Weighted(data)
  {
    if data != [] {
      Sums(data[1..]);
      SumsOf(data[0], data[1..]);
      assert data == [data[0]] + data[1..];
    }
  }

  /** Adler-32 in closed form (section 8.2 of RFC 1950). */
  lemma AdlerIs(data: seq<byte>)
    ensures Adler32(data) == (|data| + Weighted(data)) % 65521 * 65536 + (1 + Total(data)) % 65521
  {
    Sums(data);
    hide S1, S2, Total, Weighted;
  }

  // ---- The tables ----

  /** Length symbols in fours, each four with one extra bit more; 258 has its own. */
  lemma LengthsAre(i: nat)
    requires i < 29
    ensures LENGTH_EXTRA_BITS[i] == if i < 8 || i == 28 then 0 else (i - 4) / 4
    ensures LENGTH_BASE[i] == if i < 8 then 3 + i else if i == 28 then 258 else 3 + (4 + i % 4) * Pow2((i - 4) / 4)
  {
    SmallPowers(if i < 8 then 0 else if i == 28 then 0 else (i - 4) / 4);
  }

  /** Distance symbols in pairs, each pair with one extra bit more. */
  lemma DistancesAre(i: nat)
    requires i < 30
    ensures DISTANCE_EXTRA_BITS[i] == if i < 4 then 0 else (i - 2) / 2
    ensures DISTANCE_BASE[i] == if i < 4 then 1 + i else 1 + (2 + i % 2) * Pow2((i - 2) / 2)
  {
    if i < 16 {
      NearDistances(i);
    } else {
      FarDistances(i);
    }
    hide Pow2;
  }

  lemma NearDistances(i: nat)
    requires i < 16
    ensures DISTANCE_EXTRA_BITS[i] == if i < 4 then 0 else (i - 2) / 2
    ensures DISTANCE_BASE[i] == if i < 4 then 1 + i else 1 + (2 + i % 2) * Pow2((i - 2) / 2)
  {
    SmallPowers(if i < 4 then 0 else (i - 2) / 2);
    hide Pow2;
  }

  lemma FarDistances(i: nat)
    requires 16 <= i < 30
    ensures DISTANCE_EXTRA_BITS[i] == (i - 2) / 2 && DISTANCE_BASE[i] == 1 + (2 + i % 2) * Pow2((i - 2) / 2)
  {
    SmallPowers((i - 2) / 2);
    hide Pow2;
  }

  /** The code length codes are sent outwards from 8 and 7 in turn. */
  lemma OrderIs(k: nat)
    ensures CODE_LENGTH_CODES_ORDER[..4] == [16, 17, 18, 0] && |CODE_LENGTH_CODES_ORDER| == 19
    ensures k < 8 ==> CODE_LENGTH_CODES_ORDER[4 + 2 * k] == 8 + k
    ensures k < 7 ==> CODE_LENGTH_CODES_ORDER[5 + 2 * k] == 7 - k
  {
  }

  /** The lengths of the fixed code (section 3.2.6 of RFC 1951). */
  lemma FixedIs(i: nat)
    ensures |FIXED.literal| == 288 && |FIXED.distance| == 30
    ensures i < 288 ==> FIXED.literal[i] == if 144 <= i <= 255 then 9 else if 256 <= i <= 279 then 7 else 8
    ensures i < 30 ==> FIXED.distance[i] == 5
  {
  }

  /** The three kinds of run (section 3.2.7 of RFC 1951): 3 to 6 times the last length, 3 to 10 zeros, 11 to 138 zeros. */
  lemma RunsAre(bl: seq<nat>, r: Run)
    requires RunApplies(bl, r)
    ensures match r
            case Length(l) => ApplyRun(bl, r) == bl + [l]
            case Again(e) => e <= 3 && ApplyRun(bl, r) == bl + seq(3 + e, _ => bl[|bl| - 1])
            case Zeros(e) => e <= 7 && ApplyRun(bl, r) == bl + seq(3 + e, _ => 0)
            case ManyZeros(e) => e <= 127 && ApplyRun(bl, r) == bl + seq(11 + e, _ => 0)
  {
  }
}
