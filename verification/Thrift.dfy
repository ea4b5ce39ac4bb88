/**
 What a compressor that looks for repeats is for: it never spells out bytes that
 stood a little before, so that data that repeats itself takes little room.
 */
module Thrift {
  import opened Bits
  import opened Canonical
  import opened Format
  import opened InflateSpec
  import opened FixedCodes

  /** `length` bytes at `i` repeat the bytes `distance` before them. */
  predicate Repeats(data: seq<byte>, i: nat, length: nat, distance: nat) {
    && 1 <= distance <= i && i + length <= |data|
    && forall k :: i <= k < i + length ==> data[k] == data[k - distance]
  }

  /**
   As good as any repeat near by: of every run of three bytes or more that is repeated
   from 128 bytes back or less, all is taken or at least 64 bytes.
   */
  predicate Best(data: seq<byte>, i: nat, length: nat) {
    forall n: nat, d: nat :: 3 <= n <= 258 && d <= 128 && Repeats(data, i, n, d) ==> length >= n || length >= 64
  }

  function Span(t: Token): (n: nat)
    requires Encodable(FIXED, t)
    ensures n >= 1
  {
    if t.Pair? then LengthBounds(t.length); t.Length() else 1
  }

  /** How many bytes the tokens stand for. */
  function Covered(tokens: seq<Token>): nat
    requires AllEncodable(FIXED, tokens)
  {
    if tokens == [] then 0 else Covered(tokens[..|tokens| - 1]) + Span(tokens[|tokens| - 1])
  }

  /** At its place in `data`, every token is as good as any repeat near by. */
  predicate Greedy(data: seq<byte>, tokens: seq<Token>)
    requires AllEncodable(FIXED, tokens)
  {
    tokens == [] ||
    var front := tokens[..|tokens| - 1];
    Greedy(data, front) && Best(data, Covered(front), Span(tokens[|tokens| - 1]))
  }

  lemma GreedyMore(data: seq<byte>, tokens: seq<Token>, t: Token)
    requires AllEncodable(FIXED, tokens) && Encodable(FIXED, t)
    requires Greedy(data, tokens) && Best(data, Covered(tokens), Span(t))
    ensures AllEncodable(FIXED, tokens + [t])
    ensures Greedy(data, tokens + [t]) && Covered(tokens + [t]) == Covered(tokens) + Span(t)
  {
    hide Best, Encodable, Span;
    assert (tokens + [t])[..|tokens|] == tokens;
  }

  /** After its first `period` bytes, the data says the same over and over. */
  predicate Periodic(data: seq<byte>, period: nat) {
    1 <= period && forall k :: period <= k < |data| ==> data[k] == data[k - period]
  }

  /** What the last two bytes can cost when they are too few to be a pair. */
  function Tail(left: nat): nat {
    if left >= 3 then 0 else 64 * (3 - left)
  }

  /** Past the first period, a greedy token takes at least 64 bytes, or all there are. */
  lemma {:induction false} FewTokens(data: seq<byte>, tokens: seq<Token>, period: nat)
    requires AllEncodable(FIXED, tokens) && Greedy(data, tokens) && Covered(tokens) <= |data|
    requires Periodic(data, period) && period <= 128
    ensures var c := Covered(tokens);
            64 * |tokens| <= 64 * (if c < period then c else period) + c + Tail(|data| - c)
  {
    hide Best, Encodable, Span;
    if tokens != [] {
      var front := tokens[..|tokens| - 1];
      FewTokens(data, front, period);
      var c, n := Covered(front), Span(tokens[|tokens| - 1]);
      if c >= period {
        LongToken(data, c, n, period);
      }
    }
  }

  lemma LongToken(data: seq<byte>, c: nat, n: nat, period: nat)
    requires Best(data, c, n) && Periodic(data, period) && period <= 128 && period <= c
    ensures |data| - c >= 64 ==> n >= 64
    ensures 3 <= |data| - c < 64 ==> n >= |data| - c
  {
    var left := if |data| - c >= 64 then 64 else |data| - c;
    if left >= 3 {
      assert Repeats(data, c, left, period);
    }
  }

  lemma TokenCost(t: Token)
    requires Encodable(FIXED, t)
    ensures |TokenBits(FIXED, t)| <= 32
  {
    match t
    case Literal(v) => FixedLength(v);
    case Pair(l, _, d, _) =>
      FixedLength(257 + l);
      FixedDistanceCode(d);
      LengthBounds(l);
      DistanceBounds(d);
      hide CodeBits, Lsb, Runs;
  }

  lemma {:induction false} TokensCost(tokens: seq<Token>)
    requires AllEncodable(FIXED, tokens)
    ensures |TokensBits(FIXED, tokens)| <= 32 * |tokens|
  {
    hide TokenBits, Encodable;
    if tokens != [] {
      TokenCost(tokens[0]);
      TokensCost(tokens[1..]);
    }
  }

  /** Data of a short period takes four bytes for each of its first period and half a bit for each that follows. */
  lemma RepeatsAreCheap(data: seq<byte>, tokens: seq<Token>, period: nat)
    requires AllEncodable(FIXED, tokens) && Greedy(data, tokens) && Covered(tokens) == |data|
    requires Periodic(data, period) && period <= 128
    ensures |TokensBits(FIXED, tokens)| <= 32 * period + |data| / 2 + 96
  {
    hide Greedy, Encodable, TokensBits, Covered;
    FewTokens(data, tokens, period);
    TokensCost(tokens);
  }
}
