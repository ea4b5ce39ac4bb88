/** The fixed code lengths (section 3.2.6 of RFC 1951) and the codes they give. */
module FixedCodes {
  import opened Bits
  import opened Canonical
  import opened InflateSpec

  lemma {:induction false} CountConcat(a: seq<nat>, b: seq<nat>, l: nat, i: nat)
    requires i <= |b|
    ensures CountTo(a + b, l, |a| + i) == Count(a, l) + CountTo(b, l, i)
  {
    if i == 0 {
      CountPrefix(a + b, l, |a|, |a|);
      assert (a + b)[..|a|] == a;
    } else {
      CountConcat(a, b, l, i - 1);
    }
  }

  lemma {:induction false} CountRuns(n: nat, v: nat, l: nat, i: nat)
    requires i <= n
    ensures CountTo(Runs(n, v), l, i) == if v == l then i else 0
  {
    if i > 0 {
      CountRuns(n, v, l, i - 1);
    }
  }

  lemma {:induction false} KraftConcat(a: seq<nat>, n: nat, v: nat, max: nat)
    ensures Kraft(a + Runs(n, v), max) == Kraft(a, max) + n * Share(v, max)
  {
    if n == 0 {
      assert a + Runs(0, v) == a;
    } else {
      var bl := a + Runs(n, v);
      assert bl[..|bl| - 1] == a + Runs(n - 1, v);
      assert Kraft(bl, max) == Kraft(a + Runs(n - 1, v), max) + Share(v, max);
      hide Kraft, Share, Runs;
      KraftConcat(a, n - 1, v, max);
      assert n * Share(v, max) == (n - 1) * Share(v, max) + Share(v, max);
    }
  }

  lemma Shares()
    ensures Share(7, 15) == 256 && Share(8, 15) == 128 && Share(9, 15) == 64 && Share(5, 15) == 1024
    ensures Pow2(15) == 32768
  {
  }

  /** The fixed literal codes fill the code space, the thirty distance codes all but two of it. */
  lemma FixedKraft()
    ensures Kraft(FIXED.literal, 15) == Pow2(15)
    ensures Kraft(FIXED.distance, 15) < Pow2(15)
  {
    Shares();
    hide Share, Pow2, Runs;
    var a: seq<nat> := [] + Runs(144, 8);
    assert a == Runs(144, 8);
    KraftConcat([], 144, 8, 15);
    KraftConcat(a, 112, 9, 15);
    KraftConcat(a + Runs(112, 9), 24, 7, 15);
    KraftConcat(a + Runs(112, 9) + Runs(24, 7), 8, 8, 15);
    KraftConcat([], 30, 5, 15);
    assert [] + Runs(30, 5) == Runs(30, 5);
  }

  lemma FixedValid()
    ensures FIXED.Valid()
  {
    FixedKraft();
  }

  /** The two pieces of a concatenation are counted one after the other. */
  lemma CountAppend(a: seq<nat>, n: nat, v: nat, l: nat, i: nat)
    requires i <= |a| + n
    ensures CountTo(a + Runs(n, v), l, i)
         == if i <= |a| then CountTo(a, l, i) else Count(a, l) + (if v == l then i - |a| else 0)
  {
    if i <= |a| {
      CountPrefix(a + Runs(n, v), l, i, |a|);
      assert (a + Runs(n, v))[..|a|] == a;
    } else {
      CountConcat(a, Runs(n, v), l, i - |a|);
      CountRuns(n, v, l, i - |a|);
    }
  }

  lemma FixedCountTo(l: nat, i: nat)
    requires i <= 288
    ensures CountTo(FIXED.literal, l, i) ==
            if l == 8 then (if i <= 144 then i else if i <= 280 then 144 else i - 136)
            else if l == 9 then (if i <= 144 then 0 else if i <= 256 then i - 144 else 112)
            else if l == 7 then (if i <= 256 then 0 else if i <= 280 then i - 256 else 24)
            else 0
  {
    var a: seq<nat> := Runs(144, 8);
    var b := a + Runs(112, 9);
    var c := b + Runs(24, 7);
    assert FIXED.literal == c + Runs(8, 8);
    assert |a| == 144 && |b| == 256 && |c| == 280;
    hide Runs, CountTo;
    CountAppend(c, 8, 8, l, i);
    CountAppend(b, 24, 7, l, if i <= 280 then i else 280);
    CountAppend(a, 112, 9, l, if i <= 256 then i else 256);
    CountRuns(144, 8, l, if i <= 144 then i else 144);
  }

  lemma {:induction false} FixedFirstLow(l: nat)
    requires l <= 7
    ensures FirstCode(FIXED.literal, l) == 0
  {
    if l > 1 {
      FixedFirstLow(l - 1);
      FixedCountTo(l - 1, 288);
    }
  }

  lemma FixedFirst()
    ensures FirstCode(FIXED.literal, 7) == 0
    ensures FirstCode(FIXED.literal, 8) == 0x30
    ensures FirstCode(FIXED.literal, 9) == 0x190
  {
    FixedFirstLow(7);
    FixedCountTo(7, 288);
    FixedCountTo(8, 288);
    assert |FIXED.literal| == 288;
    hide CountTo;
  }

  /** The encoder's closed form for a symbol of the fixed code: value and length. */
  function FixedCode(symbol: nat): (nat, nat) {
    if symbol <= 143 then (0x30 + symbol, 8)
    else if symbol <= 255 then (0x190 + symbol - 144, 9)
    else if symbol <= 279 then (symbol - 256, 7)
    else (0xC0 + symbol - 280, 8)
  }

  lemma FixedLength(symbol: nat)
    requires symbol < 288
    ensures FIXED.literal[symbol] == FixedCode(symbol).1
  {
  }

  /** The closed form is the canonical code the decoder's tree is built from. */
  lemma FixedCodeIsCanonical(symbol: nat)
    requires symbol < 288
    ensures CodeBits(FIXED.literal, symbol) == Msb(FixedCode(symbol).0, FixedCode(symbol).1)
    ensures FIXED.literal[symbol] == FixedCode(symbol).1
  {
    FixedLength(symbol);
    FixedFirst();
    FixedCountTo(FIXED.literal[symbol], symbol);
    hide CountTo, FirstCode, Runs, Msb;
  }

  lemma {:induction false} FixedDistanceFirst(l: nat)
    requires l <= 5
    ensures FirstCode(FIXED.distance, l) == 0
  {
    if l > 1 {
      FixedDistanceFirst(l - 1);
      CountRuns(30, 5, l - 1, 30);
    }
  }

  /** A distance symbol is its own five-bit code. */
  lemma FixedDistanceCode(d: nat)
    requires d < 30
    ensures CodeBits(FIXED.distance, d) == Msb(d, 5) && FIXED.distance[d] == 5
  {
    FixedDistanceFirst(5);
    CountRuns(30, 5, 5, d);
  }
}
