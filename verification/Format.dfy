/**
 The DEFLATE data format (RFC 1951): length and distance tables, the symbols a
 compressed block is made of, the bits that carry them and the bytes they mean.
 */
module Format {
  import opened Basics
  import opened Bits
  import opened Canonical

  const LENGTH_EXTRA_BITS: seq<nat> := [
    0, 0, 0, 0, 0, 0, 0, 0, 1, 1, 1, 1, 2, 2, 2, 2, 3, 3, 3, 3, 4, 4, 4, 4, 5, 5, 5, 5, 0]
  const LENGTH_BASE: seq<nat> := [
    3, 4, 5, 6, 7, 8, 9, 10, 11, 13, 15, 17, 19, 23, 27, 31, 35, 43, 51, 59,
    67, 83, 99, 115, 131, 163, 195, 227, 258]
  const DISTANCE_EXTRA_BITS: seq<nat> := [
    0, 0, 0, 0, 1, 1, 2, 2, 3, 3, 4, 4, 5, 5, 6, 6, 7, 7, 8, 8, 9, 9, 10, 10, 11, 11, 12, 12, 13, 13]
  const DISTANCE_BASE: seq<nat> := [
    1, 2, 3, 4, 5, 7, 9, 13, 17, 25, 33, 49, 65, 97, 129, 193, 257, 385, 513,
    769, 1025, 1537, 2049, 3073, 4097, 6145, 8193, 12289, 16385, 24577]

  const END_OF_BLOCK := 256

  /** One symbol of a block: a byte, or a copy of earlier output. */
  datatype Token =
    | Literal(value: byte)
    | Pair(length: nat, lengthExtra: nat, distance: nat, distanceExtra: nat)
  {
    predicate Valid() {
      Pair? ==>
        && length < 29 && lengthExtra < Pow2(LENGTH_EXTRA_BITS[length])
        && distance < 30 && distanceExtra < Pow2(DISTANCE_EXTRA_BITS[distance])
    }

    function Length(): nat
      requires Valid() && Pair?
    {
      LENGTH_BASE[length] + lengthExtra
    }

    function Distance(): nat
      requires Valid() && Pair?
    {
      DISTANCE_BASE[distance] + distanceExtra
    }
  }

  lemma LengthBounds(i: nat)
    requires i < 29
    ensures LENGTH_EXTRA_BITS[i] <= 5 && 3 <= LENGTH_BASE[i] <= 258
  {
  }

  /** Each length symbol starts where the one before it ends, but for 258, which has its own. */
  lemma LengthNext(i: nat)
    requires i < 29
    ensures LENGTH_BASE[i] + Pow2(LENGTH_EXTRA_BITS[i])
         == if i < 27 then LENGTH_BASE[i + 1] else 259
    ensures i == 28 ==> LENGTH_BASE[i] == 258
  {
    SmallPowers(LENGTH_EXTRA_BITS[i]);
    hide Pow2;
  }

  lemma LengthTable(i: nat)
    requires i < 29
    ensures LENGTH_EXTRA_BITS[i] <= 5
    ensures 3 <= LENGTH_BASE[i]
    ensures LENGTH_BASE[i] + Pow2(LENGTH_EXTRA_BITS[i]) <= 259
  {
    LengthBounds(i);
    LengthNext(i);
    if i < 27 {
      LengthBounds(i + 1);
    }
  }

  lemma SmallPowers(n: nat)
    requires n <= 13
    ensures Pow2(n) == [1, 2, 4, 8, 16, 32, 64, 128, 256, 512, 1024, 2048, 4096, 8192][n]
  {
    if n > 0 {
      SmallPowers(n - 1);
    }
  }

  lemma DistanceBounds(i: nat)
    requires i < 30
    ensures DISTANCE_EXTRA_BITS[i] <= 13 && 1 <= DISTANCE_BASE[i] <= 24577
  {
  }

  lemma DistanceNext(i: nat)
    requires i < 30
    ensures DISTANCE_BASE[i] + Pow2(DISTANCE_EXTRA_BITS[i]) == if i < 29 then DISTANCE_BASE[i + 1] else 32769
  {
    SmallPowers(DISTANCE_EXTRA_BITS[i]);
    hide Pow2;
  }

  lemma DistanceTable(i: nat)
    requires i < 30
    ensures DISTANCE_EXTRA_BITS[i] <= 13
    ensures 1 <= DISTANCE_BASE[i]
    ensures DISTANCE_BASE[i] + Pow2(DISTANCE_EXTRA_BITS[i]) <= 32769
  {
    DistanceBounds(i);
    DistanceNext(i);
    if i < 29 {
      DistanceBounds(i + 1);
    }
  }

  // ---- What the symbols mean ----

  /** `length` more bytes, each the byte `distance` back from the end at that moment. */
  function Copy(out: seq<byte>, distance: nat, length: nat): (r: seq<byte>)
    requires 1 <= distance <= |out|
    ensures |r| == |out| + length
    decreases length
  {
    if length == 0 then out else Copy(out + [out[|out| - distance]], distance, length - 1)
  }

  predicate Applies(out: seq<byte>, t: Token) {
    t.Valid() && (t.Pair? ==> 1 <= t.Distance() <= |out|)
  }

  function Apply(out: seq<byte>, t: Token): seq<byte>
    requires Applies(out, t)
  {
    match t
    case Literal(v) => out + [v]
    case Pair(_, _, _, _) => Copy(out, t.Distance(), t.Length())
  }

  predicate Expands(out: seq<byte>, tokens: seq<Token>)
    decreases |tokens|
  {
    tokens == [] || (Applies(out, tokens[0]) && Expands(Apply(out, tokens[0]), tokens[1..]))
  }

  /** `out` followed by everything `tokens` stand for. */
  function Expand(out: seq<byte>, tokens: seq<Token>): (r: seq<byte>)
    requires Expands(out, tokens)
    ensures |r| >= |out|
    decreases |tokens|
  {
    if tokens == [] then out else Expand(Apply(out, tokens[0]), tokens[1..])
  }

  lemma {:induction false} ExpandSnoc(out: seq<byte>, tokens: seq<Token>, t: Token)
    requires Expands(out, tokens) && Applies(Expand(out, tokens), t)
    ensures Expands(out, tokens + [t])
    ensures Expand(out, tokens + [t]) == Apply(Expand(out, tokens), t)
    decreases |tokens|
  {
    if tokens == [] {
      assert (tokens + [t])[1..] == [];
    } else {
      ExpandSnoc(Apply(out, tokens[0]), tokens[1..], t);
      assert (tokens + [t])[1..] == tokens[1..] + [t];
    }
  }

  /** A stretch of `data` that repeats what stands `distance` before it is that copy. */
  lemma {:induction false} CopyRepeats(data: seq<byte>, i: nat, distance: nat, length: nat)
    requires 1 <= distance <= i && i + length <= |data|
    requires forall k :: i <= k < i + length ==> data[k] == data[k - distance]
    ensures Copy(data[..i], distance, length) == data[..i + length]
    decreases length
  {
    if length > 0 {
      assert data[..i] + [data[i - distance]] == data[..i + 1];
      CopyRepeats(data, i + 1, distance, length - 1);
    }
  }

  // ---- The bits that carry the symbols ----

  /** The code lengths of the literal/length and the distance symbols. */
  datatype Codes = Codes(literal: seq<nat>, distance: seq<nat>) {
    predicate Valid() {
      && Subscribed(literal, 15) && Subscribed(distance, 15)
      && Used(literal, END_OF_BLOCK)
    }
  }

  predicate Encodable(c: Codes, t: Token) {
    && t.Valid()
    && match t
       case Literal(v) => Used(c.literal, v)
       case Pair(length, _, distance, _) => Used(c.literal, 257 + length) && Used(c.distance, distance)
  }

  function TokenBits(c: Codes, t: Token): seq<bool>
    requires Encodable(c, t)
  {
    match t
    case Literal(v) => CodeBits(c.literal, v)
    case Pair(length, lengthExtra, distance, distanceExtra) =>
      CodeBits(c.literal, 257 + length) + (Lsb(lengthExtra, LENGTH_EXTRA_BITS[length])
        + (CodeBits(c.distance, distance) + Lsb(distanceExtra, DISTANCE_EXTRA_BITS[distance])))
  }

  predicate AllEncodable(c: Codes, tokens: seq<Token>) {
    forall i :: 0 <= i < |tokens| ==> Encodable(c, tokens[i])
  }

  function TokensBits(c: Codes, tokens: seq<Token>): seq<bool>
    requires AllEncodable(c, tokens)
  {
    if tokens == [] then [] else TokenBits(c, tokens[0]) + TokensBits(c, tokens[1..])
  }

  /** A block's symbols and its end mark. */
  function BlockBits(c: Codes, tokens: seq<Token>): seq<bool>
    requires AllEncodable(c, tokens) && Used(c.literal, END_OF_BLOCK)
  {
    TokensBits(c, tokens) + CodeBits(c.literal, END_OF_BLOCK)
  }

  lemma {:induction false} TokensBitsSnoc(c: Codes, tokens: seq<Token>, t: Token)
    requires AllEncodable(c, tokens) && Encodable(c, t)
    ensures AllEncodable(c, tokens + [t])
    ensures TokensBits(c, tokens + [t]) == TokensBits(c, tokens) + TokenBits(c, t)
  {
    hide TokenBits, Encodable;
    if tokens == [] {
      assert (tokens + [t])[1..] == [];
    } else {
      TokensBitsSnoc(c, tokens[1..], t);
      assert (tokens + [t])[1..] == tokens[1..] + [t];
      Associative(TokenBits(c, tokens[0]), TokensBits(c, tokens[1..]), TokenBits(c, t));
    }
  }
}
