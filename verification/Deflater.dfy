/**
 The deflater as it runs, and why its stream is one the format describes: a
 single block in the fixed code, whose matches come from chains of positions with
 equal hashes.
 */
module Deflater {
  import opened Basics
  import opened Wrappers
  import opened Bits
  import opened ZlibErrors
  import opened Canonical
  import opened Format
  import opened BitIO
  import opened InflateSpec
  import opened FixedCodes
  import opened Streams
  import opened Thrift
  import Inflater

  const MIN_MATCH := 3
  const MAX_MATCH := 258
  const WINDOW := 32768
  const MATCH_TRIES := 128
  const NICE_MATCH := 64

  /** `usize::MAX`, the end of a chain. */
  const NONE: nat := 0xFFFF_FFFF_FFFF_FFFF

  /** The most a vector can hold: `isize::MAX` bytes. */
  const MAX_LEN: nat := 0x7FFF_FFFF_FFFF_FFFF

  // ---- Hashing ----

  /** The exponent of the first power of two that is at least `n`. */
  function CeilLog2(n: nat): (k: nat)
    requires n > 0
  {
    if n == 1 then 0 else 1 + CeilLog2((n + 1) / 2)
  }

  function HashBits(len: nat): (bits: nat)
    ensures 8 <= bits <= 15
  {
    var k := CeilLog2(if len > 2 then len else 2);
    if k < 8 then 8 else if k > 15 then 15 else k
  }

  function TrailingZeros(n: nat): nat
    requires n > 0
  {
    if n % 2 == 1 then 0 else 1 + TrailingZeros(n / 2)
  }

  lemma {:induction false} TrailingZerosOfPower(k: nat)
    ensures TrailingZeros(Pow2(k)) == k
  {
    if k > 0 {
      TrailingZerosOfPower(k - 1);
    }
  }

  function Hash(data: seq<byte>, at: nat, bits: nat): (h: nat)
    requires at + MIN_MATCH <= |data| && bits <= 32
    ensures h < Pow2(bits)
  {
    var three := data[at] as int * 0x1_0000 + data[at + 1] as int * 0x100 + data[at + 2] as int;
    var product := three * 2_654_435_761 % 0x1_0000_0000;
    Pow2OfBytes();
    ShrBelow(product, 32 - bits, bits);
    Shr(product, 32 - bits)
  }

  // ---- The match finder ----

  /** The last position before `n` whose three bytes hash to `h`. */
  function Latest(data: seq<byte>, bits: nat, h: nat, n: nat): (p: nat)
    requires bits <= 32 && n <= |data| <= MAX_LEN
    ensures p == NONE || (p < n && p + MIN_MATCH <= |data| && Hash(data, p, bits) == h)
  {
    if n == 0 then NONE
    else if n - 1 + MIN_MATCH <= |data| && Hash(data, n - 1, bits) == h then n - 1
    else Latest(data, bits, h, n - 1)
  }

  /**
   The index over the first `n` positions: `head` has the latest position of every
   hash, `prev` takes each position to the latest one before it with its own hash.
   */
  ghost predicate Chained(head: array<nat>, prev: array<nat>, data: seq<byte>, n: nat)
    reads head, prev
  {
    var bits := HashBits(|data|);
    && head.Length == Pow2(bits) && prev.Length == |data| <= MAX_LEN && n <= |data|
    && (forall h :: 0 <= h < head.Length ==> head[h] == Latest(data, bits, h, n))
    && (forall a :: 0 <= a < n && a + MIN_MATCH <= |data| ==> prev[a] == Latest(data, bits, Hash(data, a, bits), a))
  }

  /** Takes the chains from covering the positions before `at` to covering `at` as well. */
  method Remember(head: array<nat>, prev: array<nat>, data: seq<byte>, at: nat)
    requires head != prev && at < |data| && Chained(head, prev, data, at)
    modifies head, prev
    ensures Chained(head, prev, data, at + 1)
  {
    hide HashBits, Hash, Pow2, Latest, TrailingZeros;
    LatestSteps(data, HashBits(|data|), at, at + 1);
    if at + MIN_MATCH > |data| {
      return;
    }
    TrailingZerosOfPower(HashBits(|data|));
    var h := Hash(data, at, TrailingZeros(head.Length));
    prev[at] := head[h];
    head[h] := at;
  }

  /** Only the hash of its own three bytes gets a new latest position. */
  lemma LatestSteps(data: seq<byte>, bits: nat, at: nat, next: nat)
    requires bits <= 32 && at < |data| <= MAX_LEN && next == at + 1
    ensures forall h: nat :: Latest(data, bits, h, next)
              == if at + MIN_MATCH <= |data| && h == Hash(data, at, bits) then at else Latest(data, bits, h, at)
  {
    hide Latest;
    forall h: nat
      ensures Latest(data, bits, h, next)
           == if at + MIN_MATCH <= |data| && h == Hash(data, at, bits) then at else Latest(data, bits, h, at)
    {
      LatestStep(data, bits, h, at);
    }
  }

  lemma LatestStep(data: seq<byte>, bits: nat, h: nat, at: nat)
    requires bits <= 32 && at < |data| <= MAX_LEN
    ensures Latest(data, bits, h, at + 1)
         == if at + MIN_MATCH <= |data| && h == Hash(data, at, bits) then at else Latest(data, bits, h, at)
  {
    hide Hash;
  }

  method RememberRun(head: array<nat>, prev: array<nat>, data: seq<byte>, from: nat, to: nat)
    requires head != prev && from <= to <= |data| && Chained(head, prev, data, from)
    modifies head, prev
    ensures Chained(head, prev, data, to)
  {
    hide Chained;
    for at := from to to
      invariant Chained(head, prev, data, at)
    {
      Remember(head, prev, data, at);
    }
  }

  /** How many of the next `max` bytes at `candidate` and at `i` agree. */
  function Common(data: seq<byte>, candidate: nat, i: nat, max: nat): (len: nat)
    requires candidate < i && i + max <= |data|
    ensures len <= max
    ensures len > 0 ==> Repeats(data, i, len, i - candidate)
    ensures len < max ==> data[candidate + len] != data[i + len]
  {
    if max == 0 then 0
    else
      var shorter := Common(data, candidate, i, max - 1);
      if shorter == max - 1 && data[candidate + shorter] == data[i + shorter] then max else shorter
  }

  method CommonLength(data: seq<byte>, candidate: nat, i: nat, max: nat) returns (len: nat)
    requires candidate < i && i + max <= |data|
    ensures len == Common(data, candidate, i, max)
  {
    len := 0;
    while len < max && data[candidate + len] == data[i + len]
      invariant len <= max && Common(data, candidate, i, len) == len
    {
      len := len + 1;
    }
    CommonStops(data, candidate, i, len, max);
  }

  lemma {:induction false} CommonStops(data: seq<byte>, candidate: nat, i: nat, len: nat, max: nat)
    requires candidate < i && i + max <= |data| && len <= max && Common(data, candidate, i, len) == len
    requires len < max ==> data[candidate + len] != data[i + len]
    ensures Common(data, candidate, i, max) == len
  {
    if len < max {
      CommonStops(data, candidate, i, len, max - 1);
    }
  }

  /** How far a match at `i` may run. */
  function Limit(data: seq<byte>, i: nat): nat
    requires i <= |data|
  {
    if |data| - i < MAX_MATCH then |data| - i else MAX_MATCH
  }

  /** The position the search starts from: the latest earlier one with the same hash. */
  ghost function Nearest(data: seq<byte>, i: nat): nat
    requires i + MIN_MATCH <= |data| <= MAX_LEN
  {
    Latest(data, HashBits(|data|), Hash(data, i, HashBits(|data|)), i)
  }

  /** A chain's links lead strictly backwards, to positions with the hash of the three bytes at `i`. */
  ghost predicate Link(data: seq<byte>, i: nat, next: nat, candidate: nat)
    requires i + MIN_MATCH <= |data|
  {
    var bits := HashBits(|data|);
    next == NONE || (next < candidate && next + MIN_MATCH <= |data| && Hash(data, next, bits) == Hash(data, i, bits))
  }

  lemma LinkBack(head: array<nat>, prev: array<nat>, data: seq<byte>, i: nat, a: nat)
    requires Chained(head, prev, data, i) && i + MIN_MATCH <= |data| && a != NONE && Link(data, i, a, i)
    ensures prev.Length == |data| <= MAX_LEN && a < i && Link(data, i, prev[a], a)
    ensures forall p: nat :: p < a && AlikeAt(data, p, i) ==> Ahead(p, prev[a])
  {
    hide Hash, HashBits, Pow2, Latest;
    forall p: nat | p < a && AlikeAt(data, p, i)
      ensures Ahead(p, prev[a])
    {
      AlikeIsListed(data, p, i, a);
    }
  }

  lemma FirstLink(head: array<nat>, prev: array<nat>, data: seq<byte>, i: nat)
    requires Chained(head, prev, data, i) && i + MIN_MATCH <= |data|
    ensures var h := Hash(data, i, HashBits(|data|));
            && |data| <= MAX_LEN && h < head.Length && head[h] == Nearest(data, i) && Link(data, i, head[h], i)
            && forall p: nat :: p < i && AlikeAt(data, p, i) ==> Ahead(p, head[h])
  {
    hide Hash, HashBits, Pow2, Latest;
    var h := Hash(data, i, HashBits(|data|));
    forall p: nat | p < i && AlikeAt(data, p, i)
      ensures Ahead(p, head[h])
    {
      AlikeIsListed(data, p, i, i);
    }
  }

  /** The three bytes at `p` are those at `i`. */
  predicate AlikeAt(data: seq<byte>, p: nat, i: nat) {
    p < i && i + 3 <= |data| && data[p..p + 3] == data[i..i + 3]
  }

  /** A chain at `candidate` has yet to come to `p`. */
  predicate Ahead(p: nat, candidate: nat) {
    candidate != NONE && p <= candidate
  }

  /** Positions with the three bytes of `i` have its hash, so no chain passes them by. */
  lemma AlikeIsListed(data: seq<byte>, p: nat, i: nat, n: nat)
    requires AlikeAt(data, p, i) && p < n <= i && |data| <= MAX_LEN
    ensures Ahead(p, Latest(data, HashBits(|data|), Hash(data, i, HashBits(|data|)), n))
  {
    hide HashBits, Latest;
    assert data[p..p + 3][0] == data[p] && data[p..p + 3][1] == data[p + 1] && data[p..p + 3][2] == data[p + 2];
    LatestIsLast(data, HashBits(|data|), p, n);
  }

  lemma {:induction false} LatestIsLast(data: seq<byte>, bits: nat, p: nat, n: nat)
    requires bits <= 32 && p < n <= |data| <= MAX_LEN && p + MIN_MATCH <= |data|
    ensures Ahead(p, Latest(data, bits, Hash(data, p, bits), n))
  {
    hide Hash;
    if p < n - 1 {
      LatestIsLast(data, bits, p, n - 1);
    }
  }

  /** What a search has found so far: nothing, or a true match inside the window. */
  predicate Found(data: seq<byte>, i: nat, length: nat, distance: nat) {
    length <= MAX_MATCH && i + length <= |data| && (length > 0 ==> Repeats(data, i, length, distance) && distance <= WINDOW)
  }

  /**
   Walk the chain for the three bytes at `i`. The match found, if any, is a true
   one inside the window, no shorter than what the nearest candidate offers, and as
   good as any repeat near by.
   */
  method FindMatch(head: array<nat>, prev: array<nat>, data: seq<byte>, i: nat)
    returns (length: nat, distance: nat)
    requires i < |data| && Chained(head, prev, data, i)
    ensures Found(data, i, length, distance) && Best(data, i, length)
    ensures i + MIN_MATCH <= |data| && Nearest(data, i) != NONE && i - Nearest(data, i) <= WINDOW ==>
              length >= Common(data, Nearest(data, i), i, Limit(data, i))
  {
    hide Hash, HashBits, Pow2, Found, Chained, Latest, Nearest, Common;
    if i + MIN_MATCH > |data| {
      NoneFound(data, i);
      return 0, 0;
    }
    FirstLink(head, prev, data, i);
    var h := Hash(data, i, HashBits(|data|));
    length, distance := Walk(head, prev, data, i, head[h]);
  }

  lemma NoneFound(data: seq<byte>, i: nat)
    requires i <= |data|
    ensures Found(data, i, 0, 0)
    ensures i + 3 > |data| ==> Best(data, i, 0)
  {
  }

  /** Every near position with the three bytes of `i` has been tried, or is still to come. */
  ghost predicate Tried(data: seq<byte>, i: nat, length: nat, candidate: nat)
    requires i + MIN_MATCH <= |data|
  {
    forall p: nat :: p < i <= p + 128 && AlikeAt(data, p, i) ==>
      length >= Common(data, p, i, Limit(data, i)) || Ahead(p, candidate)
  }

  method Walk(head: array<nat>, prev: array<nat>, data: seq<byte>, i: nat, nearest: nat)
    returns (length: nat, distance: nat)
    requires i + MIN_MATCH <= |data| && Chained(head, prev, data, i) && Link(data, i, nearest, i)
    requires forall p: nat :: p < i && AlikeAt(data, p, i) ==> Ahead(p, nearest)
    ensures Found(data, i, length, distance) && Best(data, i, length)
    ensures nearest != NONE && i - nearest <= WINDOW ==> length >= Common(data, nearest, i, Limit(data, i))
  {
    hide Repeats, Chained, Common, AlikeAt, Best, Hash, HashBits, Tried;
    length, distance := 0, 0;
    var candidate, tries, max := nearest, MATCH_TRIES, Limit(data, i);
    AllAhead(data, i, nearest);
    while candidate != NONE && tries > 0 && i - candidate <= WINDOW
      invariant Link(data, i, candidate, i) && length <= max && Found(data, i, length, distance)
      invariant (candidate == nearest && tries == MATCH_TRIES)
             || (nearest != NONE && length >= Common(data, nearest, i, max))
      invariant Tried(data, i, length, candidate)
      invariant candidate != NONE ==> tries + (i - candidate) > 128
      decreases tries
    {
      ghost var was := length;
      var len := CommonLength(data, candidate, i, max);
      if len > length {
        length, distance := len, i - candidate;
        if len == max || len >= NICE_MATCH {
          LongIsBest(data, i, length);
          break;
        }
      }
      LinkBack(head, prev, data, i, candidate);
      TriedMore(data, i, was, length, candidate, prev[candidate]);
      candidate := prev[candidate];
      tries := tries - 1;
    }
    if !Best(data, i, length) {
      AllTried(data, i, length, candidate);
    }
  }

  lemma AllAhead(data: seq<byte>, i: nat, nearest: nat)
    requires i + MIN_MATCH <= |data|
    requires forall p: nat :: p < i && AlikeAt(data, p, i) ==> Ahead(p, nearest)
    ensures Tried(data, i, 0, nearest)
  {
    hide AlikeAt, Ahead, Common;
  }

  lemma TriedMore(data: seq<byte>, i: nat, length: nat, better: nat, candidate: nat, next: nat)
    requires i + MIN_MATCH <= |data| && candidate < i && better >= length
    requires Tried(data, i, length, candidate) && better >= Common(data, candidate, i, Limit(data, i))
    requires forall p: nat :: p < candidate && AlikeAt(data, p, i) ==> Ahead(p, next)
    ensures Tried(data, i, better, next)
  {
    hide AlikeAt, Common;
  }

  lemma LongIsBest(data: seq<byte>, i: nat, length: nat)
    requires i <= |data| && (length == Limit(data, i) || length >= 64)
    ensures Best(data, i, length)
  {
  }

  /** Once a chain has come to its end, or more than 128 back, what was found is the best near by. */
  lemma AllTried(data: seq<byte>, i: nat, length: nat, candidate: nat)
    requires i + MIN_MATCH <= |data| && Tried(data, i, length, candidate)
    requires candidate == NONE || candidate + 128 < i
    ensures Best(data, i, length)
  {
    forall n: nat, d: nat | 3 <= n <= 258 && d <= 128 && Repeats(data, i, n, d)
      ensures length >= n
    {
      RepeatIsCommon(data, i, n, d);
      hide Repeats, Common, AlikeAt;
      assert AlikeAt(data, i - d, i);
    }
  }

  lemma RepeatIsCommon(data: seq<byte>, i: nat, n: nat, d: nat)
    requires 3 <= n <= 258 && Repeats(data, i, n, d)
    ensures AlikeAt(data, i - d, i) && Common(data, i - d, i, Limit(data, i)) >= n
  {
    assert forall k :: i <= k < i + 3 ==> data[k] == data[k - d];
    assert data[i - d..i - d + 3] == data[i..i + 3];
  }
  // ---- Emitting symbols ----

  /** Four ranges of closed forms, each equal to the canonical code. */
  method Symbol(w: BitWriter, symbol: nat)
    requires w.Valid() && symbol < 288
    modifies w
    ensures w.Valid() && w.Written() == old(w.Written()) + CodeBits(FIXED.literal, symbol)
  {
    FixedCodeIsCanonical(symbol);
    hide CodeBits, Msb, BitWriter.Written;
    if symbol <= 143 {
      w.Code(0x30 + symbol, 8);
    } else if symbol <= 255 {
      w.Code(0x190 + symbol - 144, 9);
    } else if symbol <= 279 {
      w.Code(symbol - 256, 7);
    } else {
      w.Code(0xC0 + symbol - 280, 8);
    }
  }

  /** The last entry that is at most `v`, or the first one. */
  method LastAtMost(bases: seq<nat>, v: nat) returns (k: nat)
    requires |bases| > 0
    ensures k < |bases|
    ensures forall j :: k < j < |bases| ==> bases[j] > v
    ensures k > 0 ==> bases[k] <= v
  {
    k := |bases| - 1;
    while k > 0 && bases[k] > v
      invariant k < |bases| && forall j :: k < j < |bases| ==> bases[j] > v
    {
      k := k - 1;
    }
  }

  lemma LengthFits(l: nat, length: nat)
    requires l < 29 && 3 <= length <= 258
    requires l > 0 ==> LENGTH_BASE[l] <= length
    requires forall j :: l < j < 29 ==> LENGTH_BASE[j] > length
    ensures LENGTH_BASE[l] <= length < LENGTH_BASE[l] + Pow2(LENGTH_EXTRA_BITS[l])
  {
    LengthNext(l);
    hide Pow2;
  }

  lemma DistanceFits(d: nat, distance: nat)
    requires d < 30 && 1 <= distance <= 32768
    requires d > 0 ==> DISTANCE_BASE[d] <= distance
    requires forall j :: d < j < 30 ==> DISTANCE_BASE[j] > distance
    ensures DISTANCE_BASE[d] <= distance < DISTANCE_BASE[d] + Pow2(DISTANCE_EXTRA_BITS[d])
  {
    DistanceNext(d);
    hide Pow2;
  }

  /** A pair costs at most nine bits for every byte it stands for. */
  lemma PairCost(t: Token)
    requires t.Pair? && t.Valid() && Encodable(FIXED, t)
    ensures |TokenBits(FIXED, t)| <= 9 * t.Length()
  {
    FixedLength(257 + t.length);
    FixedDistanceCode(t.distance);
    LengthBounds(t.length);
    DistanceBounds(t.distance);
    LengthCost(t.length);
    hide Pow2, CodeBits, Lsb, Runs;
  }

  lemma LengthCost(l: nat)
    requires l < 29
    ensures l < 8 ==> LENGTH_EXTRA_BITS[l] == 0 && FixedCode(257 + l).1 == 7
    ensures l >= 8 ==> LENGTH_BASE[l] >= 11
  {
  }

  lemma Encodes(t: Token)
    requires t.Valid()
    ensures Encodable(FIXED, t)
  {
    match t
    case Literal(v) => FixedLength(v);
    case Pair(l, _, d, _) =>
      FixedLength(257 + l);
      FixedDistanceCode(d);
  }

  method EmitMatch(w: BitWriter, length: nat, distance: nat) returns (ghost t: Token)
    requires w.Valid() && 3 <= length <= 258 && 1 <= distance <= 32768
    modifies w
    ensures w.Valid()
    ensures t.Pair? && Encodable(FIXED, t) && t.Length() == length && t.Distance() == distance && Tame(t, WINDOW)
    ensures w.Written() == old(w.Written()) + TokenBits(FIXED, t)
  {
    var r;
    r, t := RowsOf(length, distance);
    ghost var before := w.Written();
    hide BitWriter.Written, CodeBits, Lsb, Msb, Pow2, TokenBits, RowsFor, Encodable, Token.Length, Token.Distance;
    Symbol(w, 257 + r.l);
    w.Bits(r.lengthExtra, r.lengthBits);
    w.Code(r.d, 5);
    w.Bits(r.distanceExtra, r.distanceBits);
    WrittenPair(before, r, t, w.Written());
  }

  /** The table rows a pair is written with: symbols, extra numbers and their widths. */
  datatype Rows = Rows(
    l: nat, lengthExtra: nat, lengthBits: nat, d: nat, distanceExtra: nat, distanceBits: nat)

  ghost predicate RowsFor(r: Rows, t: Token) {
    && r.l < 29 && r.lengthBits == LENGTH_EXTRA_BITS[r.l]
    && r.d < 30 && r.distanceBits == DISTANCE_EXTRA_BITS[r.d]
    && t == Pair(r.l, r.lengthExtra, r.d, r.distanceExtra)
  }

  method RowsOf(length: nat, distance: nat) returns (r: Rows, ghost t: Token)
    requires 3 <= length <= 258 && 1 <= distance <= 32768
    ensures RowsFor(r, t) && t.Pair? && Encodable(FIXED, t)
    ensures t.Length() == length && t.Distance() == distance && Tame(t, WINDOW)
    ensures r.l < 29 && r.d < 30 && r.lengthBits <= 5 && r.distanceBits <= 13
    ensures r.lengthExtra < Pow2(r.lengthBits) && r.distanceExtra < Pow2(r.distanceBits)
  {
    var l := LastAtMost(LENGTH_BASE, length);
    LengthFits(l, length);
    var d := LastAtMost(DISTANCE_BASE, distance);
    DistanceFits(d, distance);
    LengthBounds(l);
    DistanceBounds(d);
    r := Rows(l, length - LENGTH_BASE[l], LENGTH_EXTRA_BITS[l], d, distance - DISTANCE_BASE[d], DISTANCE_EXTRA_BITS[d]);
    t := Pair(l, r.lengthExtra, d, r.distanceExtra);
    assert l < 28 ==> LENGTH_BASE[28] > length;
    hide Pow2;
    Encodes(t);
  }

  /** The four parts of a pair, written one after the other, are its bits. */
  lemma WrittenPair(before: seq<bool>, r: Rows, t: Token, after: seq<bool>)
    requires RowsFor(r, t) && Encodable(FIXED, t)
    requires 257 + r.l < |FIXED.literal|
    requires after == before + CodeBits(FIXED.literal, 257 + r.l) + Lsb(r.lengthExtra, r.lengthBits)
                    + Msb(r.d, 5) + Lsb(r.distanceExtra, r.distanceBits)
    ensures after == before + TokenBits(FIXED, t)
  {
    FixedDistanceCode(t.distance);
    hide CodeBits, Lsb, Msb, Pow2, Runs;
    FourParts(before, CodeBits(FIXED.literal, 257 + r.l), Lsb(r.lengthExtra, r.lengthBits),
              Msb(r.d, 5), Lsb(r.distanceExtra, r.distanceBits));
  }

  lemma FourParts<T>(w: seq<T>, a: seq<T>, b: seq<T>, c: seq<T>, d: seq<T>)
    ensures w + a + b + c + d == w + (a + (b + (c + d)))
  {
  }

  // ---- The whole stream ----

  /** `bits` are the start of a fixed block that stands for `data`, at most nine bits a byte. */
  predicate Started(tokens: seq<Token>, bits: seq<bool>, data: seq<byte>) {
    && AllEncodable(FIXED, tokens) && Expands([], tokens) && Expand([], tokens) == data && AllTame(tokens, WINDOW)
    && bits == BitsOf([0x78, 0x01]) + ([true] + Lsb(1, 2)) + TokensBits(FIXED, tokens)
    && |TokensBits(FIXED, tokens)| <= 9 * |data|
  }

  lemma StartedLiteral(tokens: seq<Token>, bits: seq<bool>, data: seq<byte>, i: nat)
    requires i < |data| && Started(tokens, bits, data[..i])
    ensures Started(tokens + [Literal(data[i])], bits + CodeBits(FIXED.literal, data[i]), data[..i + 1])
  {
    hide Started, BitsOf, Lsb, CodeBits;
    var t := Literal(data[i]);
    FixedLength(data[i]);
    assert data[..i + 1] == data[..i] + [data[i]];
    StartedMore(tokens, bits, data[..i], t, data[..i + 1]);
  }

  lemma StartedPair(tokens: seq<Token>, bits: seq<bool>, data: seq<byte>, i: nat, t: Token)
    requires i <= |data| && Started(tokens, bits, data[..i])
    requires t.Pair? && Encodable(FIXED, t) && Repeats(data, i, t.Length(), t.Distance()) && Tame(t, WINDOW)
    ensures Started(tokens + [t], bits + TokenBits(FIXED, t), data[..i + t.Length()])
  {
    PairCost(t);
    CopyRepeats(data, i, t.Distance(), t.Length());
    StartedMore(tokens, bits, data[..i], t, data[..i + t.Length()]);
  }

  lemma StartedMore(tokens: seq<Token>, bits: seq<bool>, data: seq<byte>, t: Token, data': seq<byte>)
    requires Started(tokens, bits, data)
    requires Encodable(FIXED, t) && Applies(data, t) && Apply(data, t) == data' && Tame(t, WINDOW)
    requires |data'| >= |data| && |TokenBits(FIXED, t)| <= 9 * (|data'| - |data|)
    ensures Started(tokens + [t], bits + TokenBits(FIXED, t), data')
  {
    hide TokenBits, Encodable, Apply, Applies, BitsOf, Lsb;
    TokensBitsSnoc(FIXED, tokens, t);
    ExpandSnoc([], tokens, t);
    Associative(BitsOf([0x78, 0x01]) + ([true] + Lsb(1, 2)), TokensBits(FIXED, tokens), TokenBits(FIXED, t));
  }

  /** The end mark, zeros up to a byte boundary and the checksum follow what was started. */
  predicate Finished(bits: seq<bool>, data: seq<byte>, z: seq<byte>) {
    var all := bits + CodeBits(FIXED.literal, END_OF_BLOCK);
    && |z| >= 4
    && BitsOf(z[..|z| - 4]) == all + Lsb(0, Padding(|all|))
    && z[|z| - 4..] == BigEndian(Adler32(data))
  }

  lemma FinishedBits(tokens: seq<Token>, bits: seq<bool>, data: seq<byte>, z: seq<byte>)
    requires Started(tokens, bits, data) && Finished(bits, data, z)
    ensures FIXED.Valid()
    ensures At(BitsOf(z), 0, BitsOf([0x78, 0x01])) && At(BitsOf(z), 16, [true] + Lsb(1, 2))
    ensures At(BitsOf(z), 19, BlockBits(FIXED, tokens))
    ensures At(BitsOf(z), AlignUp(19 + |BlockBits(FIXED, tokens)|), BitsOf(BigEndian(Adler32(data))))
    ensures 8 * |z| == AlignUp(19 + |BlockBits(FIXED, tokens)|) + 32
  {
    hide BitsOf, Lsb, CodeBits, TokensBits, Adler32, BigEndian, AlignUp, At, Expands, Expand, AllEncodable, Codes.Valid;
    FixedValid();
    var header, mark, end := BitsOf([0x78, 0x01]), [true] + Lsb(1, 2), CodeBits(FIXED.literal, END_OF_BLOCK);
    var body := TokensBits(FIXED, tokens);
    var pad := Lsb(0, Padding(|bits + end|));
    var trailer := BitsOf(BigEndian(Adler32(data)));
    SplitTrailer(z);
    FinishedParts(BitsOf(z), header, mark, body, end, pad, trailer);
  }

  lemma SplitTrailer(z: seq<byte>)
    requires |z| >= 4
    ensures BitsOf(z) == BitsOf(z[..|z| - 4]) + BitsOf(z[|z| - 4..])
  {
    hide BitsOf;
    BitsOfConcat(z[..|z| - 4], z[|z| - 4..]);
    Joined(z);
  }

  lemma FinishedParts(
    s: seq<bool>, header: seq<bool>, mark: seq<bool>, body: seq<bool>, end: seq<bool>, pad: seq<bool>, trailer: seq<bool>)
    requires |header| == 16 && |mark| == 3 && |pad| == Padding(|header + mark + body + end|)
    requires s == ((((header + mark) + body) + end) + pad) + trailer
    ensures At(s, 0, header) && At(s, 16, mark) && At(s, 19, body + end)
    ensures At(s, AlignUp(19 + |body + end|), trailer)
    ensures |s| == AlignUp(19 + |body + end|) + |trailer|
  {
    hide At, AlignUp;
    Regroup(header, mark, body, end, pad, trailer);
    AtFive(s, header, mark, body + end, pad, trailer);
  }

  lemma Joined(z: seq<byte>)
    requires |z| >= 4
    ensures z[..|z| - 4] + z[|z| - 4..] == z
  {
  }

  lemma Regroup<T>(a: seq<T>, b: seq<T>, c: seq<T>, d: seq<T>, e: seq<T>, f: seq<T>)
    ensures (((((a + b) + c) + d) + e) + f) == a + (b + ((c + d) + (e + f)))
  {
  }

  lemma AtFive(s: seq<bool>, a: seq<bool>, b: seq<bool>, c: seq<bool>, d: seq<bool>, e: seq<bool>)
    requires s == a + (b + (c + (d + e)))
    ensures At(s, 0, a) && At(s, |a|, b) && At(s, |a| + |b|, c) && At(s, |a| + |b| + |c| + |d|, e)
    ensures |s| == |a| + |b| + |c| + |d| + |e|
  {
    assert At(s, 0, a + (b + (c + (d + e))));
    hide At;
    AtConcat(s, 0, a, b + (c + (d + e)));
    AtConcat(s, |a|, b, c + (d + e));
    AtConcat(s, |a| + |b|, c, d + e);
    AtConcat(s, |a| + |b| + |c|, d, e);
  }

  /** The stream starts with the two header bytes. */
  lemma StartsWithHeader(z: seq<byte>)
    requires |z| >= 2 && At(BitsOf(z), 0, BitsOf([0x78, 0x01]))
    ensures IsHeader(z) && Window(z) == WINDOW
  {
    hide BitsOf, BytesAt, At, Lsb, Pow2, IsHeader;
    BytesDecoded([0x78, 0x01], BitsOf(z), 0);
    Inflater.BytesAreMem(z, 0, 2);
    assert z[0..2][0] == z[0] && z[0..2][1] == z[1];
    HeaderIs(z);
  }

  lemma HeaderIs(z: seq<byte>)
    requires |z| >= 2 && z[0] == 0x78 && z[1] == 0x01
    ensures IsHeader(z) && Window(z) == WINDOW
  {
    assert IsHeaderOf(z, 7, 0, 1);
    Pow2OfBytes();
    Pow2Add(7, 8);
    assert Pow2(7) == 128;
    hide Pow2;
  }

  lemma BlockBitsLength(tokens: seq<Token>)
    requires FIXED.Valid() && AllEncodable(FIXED, tokens)
    ensures |BlockBits(FIXED, tokens)| == |TokensBits(FIXED, tokens)| + 7
  {
    FixedLength(END_OF_BLOCK);
  }

  /** What was started and finished is a zlib stream for the data. */
  lemma FinishedIsZlib(tokens: seq<Token>, bits: seq<bool>, data: seq<byte>, z: seq<byte>)
    requires Started(tokens, bits, data) && Finished(bits, data, z)
    ensures IsStrictZlib(z, data) && |z| <= 6 + (9 * |data| + 17) / 8
    ensures IsZlibOf(z, data, [Fixed(tokens)]) && 8 * |z| <= |TokensBits(FIXED, tokens)| + 72
  {
    hide BitsOf, At, AllTame, Lsb, Adler32, BigEndian, BlockBits, TokensBits, IsHeader, IsZlibOf;
    FinishedBits(tokens, bits, data, z);
    StartsWithHeader(z);
    BlockBitsLength(tokens);
    OneFixedBlock(tokens, data, z);
    assert AllStrict([Fixed(tokens)], Window(z));
  }

  lemma OneFixedBlock(tokens: seq<Token>, data: seq<byte>, z: seq<byte>)
    requires FIXED.Valid() && AllEncodable(FIXED, tokens) && Expands([], tokens) && Expand([], tokens) == data
    requires At(BitsOf(z), 16, [true] + Lsb(1, 2)) && At(BitsOf(z), 19, BlockBits(FIXED, tokens))
    requires At(BitsOf(z), AlignUp(19 + |BlockBits(FIXED, tokens)|), BitsOf(BigEndian(Adler32(data))))
    ensures IsZlibOf(z, data, [Fixed(tokens)])
  {
    hide Expands, Expand, BlockBits, AllEncodable, At, Lsb, BitsOf, BigEndian, Adler32, AlignUp;
    var blocks := [Fixed(tokens)];
    assert blocks[0].Valid([]) && blocks[0].Output([]) == data;
    assert blocks[0].End([], 19) == 19 + |BlockBits(FIXED, tokens)|;
  }

  /** `z` is one block in the fixed code, whose tokens are as good as any repeat near by. */
  ghost predicate IsThrifty(z: seq<byte>, data: seq<byte>) {
    exists tokens :: Written(z, data, tokens)
  }

  ghost predicate Written(z: seq<byte>, data: seq<byte>, tokens: seq<Token>) {
    && IsZlibOf(z, data, [Fixed(tokens)])
    && AllEncodable(FIXED, tokens) && Covered(tokens) == |data| && Greedy(data, tokens)
  }

  /** Repeating data takes little room. */
  lemma RepeatsShrink(z: seq<byte>, data: seq<byte>, tokens: seq<Token>)
    requires Written(z, data, tokens) && 8 * |z| <= |TokensBits(FIXED, tokens)| + 72
    ensures forall period: nat :: period <= 128 && Periodic(data, period) ==> |z| <= 4 * period + |data| / 16 + 21
  {
    hide IsZlibOf, Greedy, Covered, TokensBits, AllEncodable;
    forall period: nat | period <= 128 && Periodic(data, period)
      ensures |z| <= 4 * period + |data| / 16 + 21
    {
      RepeatsAreCheap(data, tokens, period);
    }
  }

  /**
   The main result. Inflating the stream written, under any ceiling, gives `data`
   back, or is refused exactly when `data` does not fit; the stream is never longer
   than nine bits a byte and the wrapping, and no repeat near by is spelt out: data
   that repeats itself after at most 128 bytes takes half a bit a byte.
   */
  method Deflate(data: seq<byte>) returns (z: seq<byte>)
    requires |data| <= MAX_LEN
    ensures IsStrictZlib(z, data)
    ensures |z| <= 6 + (9 * |data| + 17) / 8 && IsThrifty(z, data)
    ensures forall period: nat :: period <= 128 && Periodic(data, period) ==> |z| <= 4 * period + |data| / 16 + 21
    ensures forall m: nat :: Inflate(z, m) == if |data| <= m then Success(data) else Failure(TooBig)
  {
    var w := new BitWriter();
    w.Bits(1, 1); // final block
    w.Bits(1, 2); // fixed Huffman codes
    ghost var tokens: seq<Token> := [];
    StartedEmpty(w.Written());
    var bits := HashBits(|data|);
    var head := new nat[Pow2(bits)](_ => NONE);
    var prev := new nat[|data|](_ => NONE);
    assert Chained(head, prev, data, 0);
    hide BitWriter.Written, Started, Chained, Repeats, HashBits, Pow2, IsZlib, IsStrictZlib, Inflate, CodeBits;
    hide Periodic, IsThrifty;
    var i := 0;
    while i < |data|
      invariant i <= |data| && w.Valid() && Started(tokens, w.Written(), data[..i]) && Thrifty(data, i, tokens)
      invariant Chained(head, prev, data, i)
    {
      i, tokens := Advance(w, head, prev, data, i, tokens);
    }
    assert data[..i] == data;
    z := EndStream(w, data, tokens);
    StrictIsZlib(z, data);
    forall m: nat
      ensures Inflate(z, m) == if |data| <= m then Success(data) else Failure(TooBig)
    {
      InflatesEveryStream(z, data, m);
    }
  }

  /** The tokens stand for the first `i` bytes, each as good as any repeat near by. */
  predicate Thrifty(data: seq<byte>, i: nat, tokens: seq<Token>) {
    AllEncodable(FIXED, tokens) && Covered(tokens) == i && Greedy(data, tokens)
  }

  lemma ThriftyMore(data: seq<byte>, i: nat, tokens: seq<Token>, t: Token)
    requires Thrifty(data, i, tokens) && Encodable(FIXED, t) && Best(data, i, Span(t))
    ensures Thrifty(data, i + Span(t), tokens + [t])
  {
    GreedyMore(data, tokens, t);
    hide Best, Greedy, Covered, Span;
  }

  lemma ThriftyLiteral(data: seq<byte>, i: nat, tokens: seq<Token>)
    requires i < |data| && Thrifty(data, i, tokens) && Best(data, i, 1)
    ensures Thrifty(data, i + 1, tokens + [Literal(data[i])])
  {
    hide Best, Thrifty;
    Encodes(Literal(data[i]));
    ThriftyMore(data, i, tokens, Literal(data[i]));
  }

  lemma ThriftyPair(data: seq<byte>, i: nat, tokens: seq<Token>, t: Token)
    requires Thrifty(data, i, tokens) && t.Pair? && Encodable(FIXED, t) && Best(data, i, t.Length())
    ensures Thrifty(data, i + t.Length(), tokens + [t])
  {
    hide Best, Thrifty;
    ThriftyMore(data, i, tokens, t);
  }

  /** One turn of the main loop: emit a literal or a match for the bytes at `i`, and remember them. */
  method Advance(w: BitWriter, head: array<nat>, prev: array<nat>, data: seq<byte>, i: nat, ghost tokens: seq<Token>)
    returns (next: nat, ghost more: seq<Token>)
    requires head != prev
    requires w.Valid() && i < |data| && Started(tokens, w.Written(), data[..i]) && Thrifty(data, i, tokens)
    requires Chained(head, prev, data, i)
    modifies w, head, prev
    ensures i < next <= |data|
    ensures w.Valid() && Started(more, w.Written(), data[..next]) && Thrifty(data, next, more)
    ensures Chained(head, prev, data, next)
  {
    hide BitWriter.Written, Started, Chained, Repeats, HashBits, Pow2, Best, Thrifty;
    var length, distance := FindMatch(head, prev, data, i);
    Remember(head, prev, data, i);
    if length < MIN_MATCH {
      FewerIsNone(data, i, length);
      more := PutLiteral(w, data, i, tokens);
      next := i + 1;
      return;
    }
    more := PutMatch(w, data, i, length, distance, tokens);
    RememberRun(head, prev, data, i + 1, i + length);
    next := i + length;
  }

  /** One or two bytes in common are no repeat. */
  lemma FewerIsNone(data: seq<byte>, i: nat, length: nat)
    requires Best(data, i, length) && length < 3
    ensures Best(data, i, 1)
  {
    hide Repeats;
  }

  method PutLiteral(w: BitWriter, data: seq<byte>, i: nat, ghost tokens: seq<Token>)
    returns (ghost more: seq<Token>)
    requires w.Valid() && i < |data| && Started(tokens, w.Written(), data[..i]) && Thrifty(data, i, tokens)
    requires Best(data, i, 1)
    modifies w
    ensures w.Valid() && Started(more, w.Written(), data[..i + 1]) && Thrifty(data, i + 1, more)
  {
    hide BitWriter.Written, Started, CodeBits, Thrifty, Best;
    ThriftyLiteral(data, i, tokens);
    StartedLiteral(tokens, w.Written(), data, i);
    Symbol(w, data[i]);
    more := tokens + [Literal(data[i])];
  }

  method PutMatch(
    w: BitWriter, data: seq<byte>, i: nat, length: nat, distance: nat, ghost tokens: seq<Token>)
    returns (ghost more: seq<Token>)
    requires w.Valid() && i <= |data| && Started(tokens, w.Written(), data[..i]) && Thrifty(data, i, tokens)
    requires Best(data, i, length)
    requires MIN_MATCH <= length <= MAX_MATCH && distance <= WINDOW && Repeats(data, i, length, distance)
    modifies w
    ensures w.Valid() && i + length <= |data| && Started(more, w.Written(), data[..i + length])
    ensures Thrifty(data, i + length, more)
  {
    hide BitWriter.Written, Started, Repeats, TokenBits, Token.Length, Token.Distance, Encodable, Tame, Best, Thrifty;
    Within(data, i, length, distance);
    ghost var before := w.Written();
    ghost var t := EmitMatch(w, length, distance);
    MatchPut(tokens, before, data, i, t, w.Written());
    more := tokens + [t];
  }

  lemma Within(data: seq<byte>, i: nat, length: nat, distance: nat)
    requires Repeats(data, i, length, distance)
    ensures i + length <= |data| && 1 <= distance
  {
  }

  lemma MatchPut(tokens: seq<Token>, before: seq<bool>, data: seq<byte>, i: nat, t: Token, after: seq<bool>)
    requires i <= |data| && Started(tokens, before, data[..i]) && Thrifty(data, i, tokens)
    requires t.Pair? && Encodable(FIXED, t) && Repeats(data, i, t.Length(), t.Distance()) && Tame(t, WINDOW)
    requires Best(data, i, t.Length()) && after == before + TokenBits(FIXED, t)
    ensures i + t.Length() <= |data| && Started(tokens + [t], after, data[..i + t.Length()])
    ensures Thrifty(data, i + t.Length(), tokens + [t])
  {
    hide Started, TokenBits, Token.Length, Token.Distance, Encodable, Tame, Best, Thrifty;
    ThriftyPair(data, i, tokens, t);
    StartedPair(tokens, before, data, i, t);
  }

  method EndStream(w: BitWriter, data: seq<byte>, ghost tokens: seq<Token>) returns (z: seq<byte>)
    requires w.Valid() && Started(tokens, w.Written(), data) && Thrifty(data, |data|, tokens)
    modifies w
    ensures IsStrictZlib(z, data) && |z| <= 6 + (9 * |data| + 17) / 8 && IsThrifty(z, data)
    ensures forall period: nat :: period <= 128 && Periodic(data, period) ==> |z| <= 4 * period + |data| / 16 + 21
  {
    hide BitWriter.Written, IsZlibOf, Greedy, Covered, TokensBits, Periodic, Started;
    hide CodeBits, IsStrictZlib, Adler32, BigEndian, Padding, BitsOf, Lsb;
    ghost var written := w.Written();
    Symbol(w, END_OF_BLOCK);
    var sum := Inflater.Adler32Of(data);
    z := w.Finish(sum);
    FinishedIsZlib(tokens, written, data, z);
    assert Written(z, data, tokens);
    RepeatsShrink(z, data, tokens);
  }

  lemma StartedEmpty(bits: seq<bool>)
    requires bits == BitsOf([0x78, 0x01]) + Lsb(1, 1) + Lsb(1, 2)
    ensures Started([], bits, [])
  {
    assert Lsb(1, 1) == [true];
    hide Lsb, BitsOf;
  }
}
