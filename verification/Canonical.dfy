/**
 Canonical codes (section 3.2.2 of RFC 1951) and the tree built from a list of
 code lengths.
 */
module Canonical {
  import opened Wrappers
  import opened Bits
  import opened Huffman

  /** How many of the first `i` symbols have codes of length `l`. */
  function CountTo(bl: seq<nat>, l: nat, i: nat): (c: nat)
    requires i <= |bl|
    ensures c <= i
  {
    if i == 0 then 0 else CountTo(bl, l, i - 1) + (if bl[i - 1] == l then 1 else 0)
  }

  function Count(bl: seq<nat>, l: nat): nat {
    CountTo(bl, l, |bl|)
  }

  /** The smallest code of length `l`. */
  function FirstCode(bl: seq<nat>, l: nat): nat {
    if l <= 1 then 0 else 2 * (FirstCode(bl, l - 1) + Count(bl, l - 1))
  }

  /** One past the largest code of length `l`. */
  function CodeEnd(bl: seq<nat>, l: nat): nat {
    FirstCode(bl, l) + Count(bl, l)
  }

  predicate Used(bl: seq<nat>, i: nat) {
    i < |bl| && bl[i] != 0
  }

  /** The code of symbol `i`: codes of one length are consecutive, in symbol order. */
  function Code(bl: seq<nat>, i: nat): nat
    requires i < |bl|
  {
    FirstCode(bl, bl[i]) + CountTo(bl, bl[i], i)
  }

  /** The bits of symbol `i`'s code as they stand in the stream. */
  function CodeBits(bl: seq<nat>, i: nat): (bits: seq<bool>)
    requires i < |bl|
    ensures |bits| == bl[i]
  {
    Msb(Code(bl, i), bl[i])
  }

  /** 2^max times the Kraft sum of the code lengths, taken symbol by symbol. */
  function Kraft(bl: seq<nat>, max: nat): nat {
    if bl == [] then 0
    else Kraft(bl[..|bl| - 1], max) + Share(bl[|bl| - 1], max)
  }

  function Share(l: nat, max: nat): nat {
    if 1 <= l <= max then Pow2(max - l) else 0
  }

  predicate AtMost(bl: seq<nat>, max: nat) {
    forall i :: 0 <= i < |bl| ==> bl[i] <= max
  }

  /** The Kraft sum is at most 1. */
  predicate Subscribed(bl: seq<nat>, max: nat) {
    AtMost(bl, max) && Kraft(bl, max) <= Pow2(max)
  }

  lemma {:induction false} CountMonotone(bl: seq<nat>, l: nat, i: nat, j: nat)
    requires i <= j <= |bl|
    ensures CountTo(bl, l, i) <= CountTo(bl, l, j)
  {
    if i < j {
      CountMonotone(bl, l, i, j - 1);
    }
  }

  lemma {:induction false} CountPrefix(bl: seq<nat>, l: nat, i: nat, n: nat)
    requires i <= n <= |bl|
    ensures CountTo(bl[..n], l, i) == CountTo(bl, l, i)
  {
    if i > 0 {
      CountPrefix(bl, l, i - 1, n);
    }
  }

  lemma {:induction false} KraftStep(bl: seq<nat>, max: nat)
    requires max > 0
    ensures Kraft(bl, max) == 2 * Kraft(bl, max - 1) + Count(bl, max)
  {
    if bl != [] {
      var n := |bl| - 1;
      KraftStep(bl[..n], max);
      CountPrefix(bl, max, n, n);
    }
  }

  lemma {:induction false} KraftZero(bl: seq<nat>)
    ensures Kraft(bl, 0) == 0
  {
    if bl != [] {
      KraftZero(bl[..|bl| - 1]);
    }
  }

  /** The codes of length at most `max` fill exactly their Kraft share of the 2^max leaves. */
  lemma {:induction false} KraftIsCodeEnd(bl: seq<nat>, max: nat)
    requires max > 0
    ensures Kraft(bl, max) == CodeEnd(bl, max)
  {
    KraftStep(bl, max);
    if max == 1 {
      KraftZero(bl);
    } else {
      KraftIsCodeEnd(bl, max - 1);
    }
  }

  /** Codes longer than `l` start beyond everything the codes of length `l` cover. */
  lemma {:induction false} CodeEndGrows(bl: seq<nat>, l: nat, k: nat)
    requires l > 0
    ensures FirstCode(bl, l + k + 1) >= CodeEnd(bl, l) * Pow2(k + 1)
    ensures CodeEnd(bl, l + k) >= CodeEnd(bl, l) * Pow2(k)
  {
    if k > 0 {
      CodeEndGrows(bl, l, k - 1);
    } else {
      assert CodeEnd(bl, l) * Pow2(0) == CodeEnd(bl, l);
    }
    hide Pow2, Count;
    Doubled(CodeEnd(bl, l), k);
  }

  lemma {:induction false} ScaledAtMost(a: nat, k: nat, b: nat)
    requires a * Pow2(k) <= b * Pow2(k)
    ensures a <= b
  {
    if k > 0 {
      assert a * Pow2(k) == 2 * (a * Pow2(k - 1));
      assert b * Pow2(k) == 2 * (b * Pow2(k - 1));
      ScaledAtMost(a, k - 1, b);
    }
  }

  lemma CodeInRange(bl: seq<nat>, max: nat, i: nat)
    requires Subscribed(bl, max) && Used(bl, i)
    ensures Code(bl, i) < CodeEnd(bl, bl[i]) <= Pow2(bl[i])
  {
    var l := bl[i];
    CountMonotone(bl, l, i + 1, |bl|);
    KraftIsCodeEnd(bl, max);
    CodeEndGrows(bl, l, max - l);
    Pow2Add(l, max - l);
    ScaledAtMost(CodeEnd(bl, l), max - l, Pow2(l));
  }

  /** With a Kraft sum of at most 1 no code begins another. */
  lemma PrefixFree(bl: seq<nat>, max: nat, i: nat, j: nat)
    requires Subscribed(bl, max) && Used(bl, i) && Used(bl, j) && i != j
    ensures !Prefix(CodeBits(bl, i), CodeBits(bl, j))
  {
    if bl[i] == bl[j] {
      SameLengthDiffers(bl, max, i, j);
    } else if bl[i] < bl[j] {
      ShorterDiffers(bl, max, i, j);
    }
  }

  lemma SameLengthDiffers(bl: seq<nat>, max: nat, i: nat, j: nat)
    requires Subscribed(bl, max) && Used(bl, i) && Used(bl, j) && i != j && bl[i] == bl[j]
    ensures !Prefix(CodeBits(bl, i), CodeBits(bl, j))
  {
    var l := bl[i];
    var first, second := if i < j then i else j, if i < j then j else i;
    CountMonotone(bl, l, first + 1, second);
    assert Code(bl, i) != Code(bl, j);
    CodeInRange(bl, max, i);
    CodeInRange(bl, max, j);
    MsbValMsb(Code(bl, i), l);
    MsbValMsb(Code(bl, j), l);
    assert CodeBits(bl, j)[..l] == CodeBits(bl, j);
  }

  lemma ShorterDiffers(bl: seq<nat>, max: nat, i: nat, j: nat)
    requires Subscribed(bl, max) && Used(bl, i) && Used(bl, j) && bl[i] < bl[j]
    ensures !Prefix(CodeBits(bl, i), CodeBits(bl, j))
  {
    var li, lj := bl[i], bl[j];
    var k := lj - li;
    CodeInRange(bl, max, i);
    CodeInRange(bl, max, j);
    CodeEndGrows(bl, li, k - 1);
    ShrAtLeast(Code(bl, j), k, CodeEnd(bl, li));
    ShrBelow(Code(bl, j), k, li);
    MsbPrefix(Code(bl, j), lj, k);
    MsbValMsb(Shr(Code(bl, j), k), li);
    MsbValMsb(Code(bl, i), li);
  }

  lemma {:induction false} ShrBelow(v: nat, k: nat, n: nat)
    requires v < Pow2(n + k)
    ensures Shr(v, k) < Pow2(n)
  {
    if k > 0 {
      ShrBelow(v / 2, k - 1, n);
    }
  }

  /** The tree after the first `k` symbols of the list have been inserted. */
  function TreeTo(bl: seq<nat>, alphabet: seq<nat>, k: nat): Node
    requires k <= |bl|
  {
    if k == 0 then EMPTY
    else
      var t := TreeTo(bl, alphabet, k - 1);
      if bl[k - 1] != 0 && k - 1 < |alphabet|
      then Insert(t, CodeBits(bl, k - 1), alphabet[k - 1]) else t
  }

  function Tree(bl: seq<nat>, alphabet: seq<nat>): Node {
    TreeTo(bl, alphabet, |bl|)
  }

  /** Among the first `n` symbols no code begins another. */
  predicate Apart(bl: seq<nat>, n: nat) {
    forall i: nat, j: nat :: i < n && j < n && i != j && Used(bl, i) && Used(bl, j) ==>
      !Prefix(CodeBits(bl, i), CodeBits(bl, j))
  }

  lemma SubscribedIsApart(bl: seq<nat>, max: nat, n: nat)
    requires Subscribed(bl, max)
    ensures Apart(bl, n)
  {
    forall i: nat, j: nat | i < n && j < n && i != j && Used(bl, i) && Used(bl, j)
      ensures !Prefix(CodeBits(bl, i), CodeBits(bl, j))
    {
      PrefixFree(bl, max, i, j);
    }
  }

  lemma {:induction false} TreeToCodes(bl: seq<nat>, alphabet: seq<nat>, k: nat, i: nat)
    requires Apart(bl, |alphabet|) && Used(bl, i) && i < |alphabet| && k <= |bl|
    ensures i < k ==> Coded(TreeTo(bl, alphabet, k), CodeBits(bl, i), alphabet[i])
    ensures i >= k ==> Walk(TreeTo(bl, alphabet, k), CodeBits(bl, i)) == None
  {
    if k == 0 {
      WalkEmpty(CodeBits(bl, i));
    } else {
      TreeToCodes(bl, alphabet, k - 1, i);
      var t := TreeTo(bl, alphabet, k - 1);
      if Used(bl, k - 1) && k - 1 < |alphabet| {
        if i == k - 1 {
          InsertCodes(t, CodeBits(bl, i), alphabet[i]);
        } else {
          InsertKeeps(t, CodeBits(bl, k - 1), alphabet[k - 1], CodeBits(bl, i));
        }
      }
    }
  }

  /** Every symbol with a code is decoded from its code, whatever follows it. */
  lemma DecodesCode(bl: seq<nat>, alphabet: seq<nat>, max: nat, i: nat, s: seq<bool>, p: nat)
    requires Subscribed(bl, max) && Used(bl, i) && i < |alphabet|
    requires At(s, p, CodeBits(bl, i))
    ensures Decode(Tree(bl, alphabet), s, p) == Success((alphabet[i], p + bl[i]))
  {
    SubscribedIsApart(bl, max, |alphabet|);
    TreeToCodes(bl, alphabet, |bl|, i);
    DecodeCoded(Tree(bl, alphabet), CodeBits(bl, i), alphabet[i], s, p);
  }

  // ---- The Kraft condition is also necessary ----

  lemma {:induction false} NthOfLength(bl: seq<nat>, l: nat, c: nat, n: nat) returns (i: nat)
    requires n <= |bl| && c < CountTo(bl, l, n)
    ensures i < n && bl[i] == l && CountTo(bl, l, i) == c
  {
    if bl[n - 1] == l && CountTo(bl, l, n - 1) == c {
      i := n - 1;
    } else {
      i := NthOfLength(bl, l, c, n - 1);
    }
  }

  /** The first length whose codes no longer fit in as many bits. */
  lemma {:induction false} FirstOverflow(bl: seq<nat>, max: nat) returns (l: nat)
    requires max > 0 && CodeEnd(bl, max) > Pow2(max)
    ensures 0 < l <= max && FirstCode(bl, l) <= Pow2(l) < CodeEnd(bl, l)
  {
    if FirstCode(bl, max) <= Pow2(max) {
      l := max;
    } else {
      l := FirstOverflow(bl, max - 1);
    }
  }

  /** The first length in use: its first code is zero. */
  lemma {:induction false} FirstUsedLength(bl: seq<nat>, l: nat) returns (l0: nat)
    requires l > 0 && Count(bl, l) > 0
    ensures 0 < l0 <= l && Count(bl, l0) > 0 && FirstCode(bl, l0) == 0
  {
    if FirstCode(bl, l) == 0 {
      l0 := l;
    } else {
      l0 := UsedBelow(bl, l);
    }
  }

  lemma {:induction false} UsedBelow(bl: seq<nat>, l: nat) returns (l0: nat)
    requires l > 0 && FirstCode(bl, l) > 0
    ensures 0 < l0 < l && Count(bl, l0) > 0 && FirstCode(bl, l0) == 0
  {
    if FirstCode(bl, l - 1) > 0 {
      l0 := UsedBelow(bl, l - 1);
    } else {
      l0 := l - 1;
    }
  }

  lemma {:induction false} ZeroBits(v: nat, n: nat)
    requires v == 0 || v == Pow2(n)
    ensures forall k :: 0 <= k < n ==> !Msb(v, n)[k]
  {
    if n > 0 {
      assert v / 2 == 0 || v / 2 == Pow2(n - 1);
      ZeroBits(v / 2, n - 1);
    }
  }

  lemma {:induction false} NothingBelowLeaf(n: Node, a: seq<bool>, b: seq<bool>)
    requires Prefix(a, b) && a != b && Walk(n, a).Some? && Leaf(Walk(n, a).value)
    ensures Walk(n, b) == None
    decreases |a|
  {
    if a != [] {
      assert a[0] == b[0];
      var child := if a[0] then n.right else n.left;
      assert b[1..][..|a| - 1] == b[..|a|][1..];
      assert [b[0]] + b[1..] == b && [a[0]] + a[1..] == a;
      NothingBelowLeaf(child.value, a[1..], b[1..]);
    } else {
      assert Leaf(n);
    }
  }

  /** With a Kraft sum above 1 the code of one symbol begins the code of another. */
  lemma OversubscribedCollides(bl: seq<nat>, max: nat) returns (i: nat, j: nat)
    requires AtMost(bl, max) && !Subscribed(bl, max)
    ensures Used(bl, i) && Used(bl, j) && i != j && Prefix(CodeBits(bl, j), CodeBits(bl, i))
  {
    if max == 0 {
      KraftZero(bl);
    }
    KraftIsCodeEnd(bl, max);
    var l := FirstOverflow(bl, max);
    i := NthOfLength(bl, l, Pow2(l) - FirstCode(bl, l), |bl|);
    var l0 := FirstUsedLength(bl, l);
    j := NthOfLength(bl, l0, 0, |bl|);
    ZeroBits(Code(bl, i), l);
    ZeroBits(Code(bl, j), l0);
  }

  predicate Distinct(s: seq<nat>) {
    forall i, j :: 0 <= i < j < |s| ==> s[i] != s[j]
  }

  /** Every symbol that is inserted is a leaf of the tree, reached by its code. */
  ghost predicate AllCoded(bl: seq<nat>, alphabet: seq<nat>) {
    forall i: nat :: Used(bl, i) && i < |alphabet| ==> Coded(Tree(bl, alphabet), CodeBits(bl, i), alphabet[i])
  }

  /**
   For any list of lengths, longer than the alphabet or not: the tree decodes all
   the symbols inserted exactly when no code of theirs begins another.
   */
  lemma AllCodedIffApart(bl: seq<nat>, alphabet: seq<nat>)
    requires Distinct(alphabet)
    ensures AllCoded(bl, alphabet) <==> Apart(bl, |alphabet|)
  {
    if Apart(bl, |alphabet|) {
      forall i: nat | Used(bl, i) && i < |alphabet|
        ensures Coded(Tree(bl, alphabet), CodeBits(bl, i), alphabet[i])
      {
        TreeToCodes(bl, alphabet, |bl|, i);
      }
    } else if AllCoded(bl, alphabet) {
      var j: nat, i: nat :| i < |alphabet| && j < |alphabet| && i != j && Used(bl, i) && Used(bl, j)
                            && Prefix(CodeBits(bl, j), CodeBits(bl, i));
      NeverBothCoded(bl, alphabet, i, j);
    }
  }

  lemma NeverBothCoded(bl: seq<nat>, alphabet: seq<nat>, i: nat, j: nat)
    requires Distinct(alphabet) && i < |alphabet| && j < |alphabet| && i != j && Used(bl, i) && Used(bl, j)
    requires Prefix(CodeBits(bl, j), CodeBits(bl, i))
    ensures !AllCoded(bl, alphabet)
  {
    if AllCoded(bl, alphabet) {
      var a, b := CodeBits(bl, j), CodeBits(bl, i);
      assert Coded(Tree(bl, alphabet), a, alphabet[j]) && Coded(Tree(bl, alphabet), b, alphabet[i]);
      if a != b {
        NothingBelowLeaf(Tree(bl, alphabet), a, b);
      }
    }
  }

  /**
   A Kraft sum of at most 1 is enough for every list, and it is necessary when no
   symbol with a code is left out of the tree.
   */
  lemma AllCodedIffSubscribed(bl: seq<nat>, alphabet: seq<nat>, max: nat)
    requires AtMost(bl, max) && Distinct(alphabet)
    ensures Subscribed(bl, max) ==> AllCoded(bl, alphabet)
    ensures (forall i :: |alphabet| <= i < |bl| ==> bl[i] == 0) ==> (AllCoded(bl, alphabet) <==> Subscribed(bl, max))
  {
    AllCodedIffApart(bl, alphabet);
    if Subscribed(bl, max) {
      SubscribedIsApart(bl, max, |alphabet|);
    } else {
      var i, j := OversubscribedCollides(bl, max);
      if i < |alphabet| && j < |alphabet| {
        NeverBothCoded(bl, alphabet, i, j);
      }
    }
  }

  /** With symbols left out it is not: three of length 1 and one of length 2, of which the last alone is in the tree. */
  lemma OversubscribedAndCoded()
    ensures AllCoded([2, 1, 1, 1], [0]) && !Subscribed([2, 1, 1, 1], 2)
  {
    AllCodedIffApart([2, 1, 1, 1], [0]);
    var bl: seq<nat> := [2, 1, 1, 1];
    assert bl[..3] == [2, 1, 1] && bl[..3][..2] == [2, 1] && bl[..3][..2][..1] == [2] && bl[..3][..2][..1][..0] == [];
    assert Share(1, 2) == 2 && Share(2, 2) == 1;
    assert Kraft(bl, 2) == Kraft(bl[..3], 2) + 2 == Kraft(bl[..3][..2], 2) + 4;
    assert Kraft(bl[..3][..2], 2) == Kraft(bl[..3][..2][..1], 2) + 2 >= 2;
  }

  // ---- Width ----

  lemma {:induction false} CodeEndAtMost(bl: seq<nat>, l: nat)
    requires l >= 1
    ensures CodeEnd(bl, l) <= |bl| * (Pow2(l) - 1)
  {
    if l == 1 {
      assert Pow2(1) == 2;
    } else {
      CodeEndAtMost(bl, l - 1);
      OneBitMore(|bl|, Pow2(l - 1));
    }
  }

  lemma OneBitMore(n: nat, p: nat)
    ensures 2 * (n * (p - 1)) + n == n * (2 * p - 1)
  {
  }

  /** However oversubscribed the list, no code the source computes in 32 bits wraps around. */
  lemma CodesFitTheirWidth(bl: seq<nat>, i: nat)
    requires i < |bl| <= 0x1_0000 && 1 <= bl[i] <= 15
    ensures Code(bl, i) < 0x8000_0000
  {
    CodeEndAtMost(bl, bl[i]);
    CountMonotone(bl, bl[i], i, |bl|);
    Pow2AtMost(bl[i], 15);
    assert Pow2(15) == 0x8000 by { assert Pow2(10) == 0x400; }
    Product(|bl|, 0x1_0000, Pow2(bl[i]) - 1, 0x7FFF);
    hide Pow2;
  }

  lemma {:induction false} Pow2AtMost(a: nat, b: nat)
    requires a <= b
    ensures Pow2(a) <= Pow2(b)
  {
    if a < b {
      Pow2AtMost(a, b - 1);
    }
  }

  lemma Product(a: nat, b: nat, x: nat, y: nat)
    requires a <= b && x <= y
    ensures a * x <= b * y
  {
  }
}
