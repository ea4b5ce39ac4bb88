/**
 The header of a dynamic block (section 3.2.7 of RFC 1951): the code lengths of
 the code length alphabet, then both lists of code lengths, run-length coded.
 */
module Headers {
  import opened Wrappers
  import opened Bits
  import opened Huffman
  import opened Canonical
  import opened Format
  import opened BitIO
  import opened InflateSpec
  import opened Symbols

  /** One item of the run-length code; the numbers are the extra bits as they are sent. */
  datatype Run = Length(length: nat) | Again(extra: nat) | Zeros(extra: nat) | ManyZeros(extra: nat) {
    predicate Valid() {
      match this
      case Length(l) => l <= 15
      case Again(e) => e < 4
      case Zeros(e) => e < 8
      case ManyZeros(e) => e < 128
    }

    function Symbol(): nat {
      match this
      case Length(l) => l
      case Again(_) => 16
      case Zeros(_) => 17
      case ManyZeros(_) => 18
    }

    function Extra(): seq<bool> {
      match this
      case Length(_) => []
      case Again(e) => Lsb(e, 2)
      case Zeros(e) => Lsb(e, 3)
      case ManyZeros(e) => Lsb(e, 7)
    }
  }

  predicate RunApplies(bl: seq<nat>, r: Run) {
    r.Valid() && (r.Again? ==> bl != [])
  }

  function ApplyRun(bl: seq<nat>, r: Run): (bl': seq<nat>)
    requires RunApplies(bl, r)
    ensures |bl'| > |bl|
  {
    match r
    case Length(l) => bl + [l]
    case Again(e) => bl + Runs(e + 3, bl[|bl| - 1])
    case Zeros(e) => bl + Runs(e + 3, 0)
    case ManyZeros(e) => bl + Runs(e + 11, 0)
  }

  predicate RunsApply(bl: seq<nat>, runs: seq<Run>)
    decreases |runs|
  {
    runs == [] || (RunApplies(bl, runs[0]) && RunsApply(ApplyRun(bl, runs[0]), runs[1..]))
  }

  function ApplyRuns(bl: seq<nat>, runs: seq<Run>): (bl': seq<nat>)
    requires RunsApply(bl, runs)
    ensures |bl'| >= |bl| + |runs|
    decreases |runs|
  {
    if runs == [] then bl else ApplyRuns(ApplyRun(bl, runs[0]), runs[1..])
  }

  predicate RunCoded(clens: seq<nat>, r: Run) {
    Used(clens, r.Symbol())
  }

  function RunBits(clens: seq<nat>, r: Run): seq<bool>
    requires RunCoded(clens, r)
  {
    CodeBits(clens, r.Symbol()) + r.Extra()
  }

  predicate AllRunsCoded(clens: seq<nat>, runs: seq<Run>) {
    forall i :: 0 <= i < |runs| ==> RunCoded(clens, runs[i])
  }

  function RunsBits(clens: seq<nat>, runs: seq<Run>): seq<bool>
    requires AllRunsCoded(clens, runs)
  {
    if runs == [] then [] else RunBits(clens, runs[0]) + RunsBits(clens, runs[1..])
  }

  /** A dynamic block's header as its writer describes it. */
  datatype Header = Header(hlit: nat, hdist: nat, hclen: nat, clens: seq<nat>, runs: seq<Run>) {
    predicate Valid() {
      && 257 <= hlit <= 288 && 1 <= hdist <= 32 && 4 <= hclen <= 19
      && |clens| == 19 && Subscribed(clens, 7)
      && (forall i :: hclen <= i < 19 ==> clens[CODE_LENGTH_CODES_ORDER[i]] == 0)
      && AllRunsCoded(clens, runs) && RunsApply([], runs)
      && |ApplyRuns([], runs)| == hlit + hdist
    }

    /** The code lengths it declares. */
    function Codes(): Codes
      requires Valid()
    {
      var bl := ApplyRuns([], runs);
      Format.Codes(bl[..hlit], bl[hlit..])
    }

    function CountBits(): seq<bool>
      requires Valid()
    {
      Lsb(hlit - 257, 5) + (Lsb(hdist - 1, 5) + Lsb(hclen - 4, 4))
    }

    function Bits(): seq<bool>
      requires Valid()
    {
      CountBits() + (ClensBits(clens, hclen) + RunsBits(clens, runs))
    }
  }

  /** The first `n` code lengths of the code length alphabet, in the order they are sent. */
  function ClensBits(clens: seq<nat>, n: nat): (b: seq<bool>)
    requires n <= 19 == |clens|
    ensures |b| == 3 * n
  {
    if n == 0 then [] else ClensBits(clens, n - 1) + Lsb(clens[CODE_LENGTH_CODES_ORDER[n - 1]], 3)
  }

  // ---- The code lengths of the code length alphabet ----

  /** Where in the sending order each symbol stands. */
  const POSITION: seq<nat> := [3, 17, 15, 13, 11, 9, 7, 5, 4, 6, 8, 10, 12, 14, 16, 18, 0, 1, 2]

  lemma OrderIsPermutation(i: nat)
    requires i < 19
    ensures CODE_LENGTH_CODES_ORDER[i] < 19 && POSITION[i] < 19
    ensures POSITION[CODE_LENGTH_CODES_ORDER[i]] == i
    ensures CODE_LENGTH_CODES_ORDER[POSITION[i]] == i
  {
  }

  /** The list with only the first `n` sent lengths in place. */
  function Sent(clens: seq<nat>, n: nat): (r: seq<nat>)
    requires |clens| == 19
    ensures |r| == 19
  {
    seq(19, i requires 0 <= i < 19 => if POSITION[i] < n then clens[i] else 0)
  }

  lemma SentStep(clens: seq<nat>, n: nat)
    requires |clens| == 19 && n < 19
    ensures CODE_LENGTH_CODES_ORDER[n] < 19
    ensures Sent(clens, n + 1)
         == Sent(clens, n)[CODE_LENGTH_CODES_ORDER[n] := clens[CODE_LENGTH_CODES_ORDER[n]]]
  {
    OrderIsPermutation(n);
    var a, b := Sent(clens, n + 1), Sent(clens, n)[CODE_LENGTH_CODES_ORDER[n] := clens[CODE_LENGTH_CODES_ORDER[n]]];
    forall i | 0 <= i < 19
      ensures a[i] == b[i]
    {
      OrderIsPermutation(i);
    }
  }

  lemma {:induction false} ClensDecoded(clens: seq<nat>, s: seq<bool>, p: nat, n: nat)
    requires |clens| == 19 && AtMost(clens, 7) && n <= 19 && At(s, p, ClensBits(clens, n))
    ensures ClensAt(s, p, n) == Success((Sent(clens, n), p + 3 * n))
  {
    if n == 0 {
      assert Sent(clens, 0) == Runs(19, 0);
    } else {
      var v := clens[CODE_LENGTH_CODES_ORDER[n - 1]];
      AtConcat(s, p, ClensBits(clens, n - 1), Lsb(v, 3));
      ClensDecoded(clens, s, p, n - 1);
      assert Pow2(3) == 8;
      hide Lsb, Sent, At, Val;
      ExtraDecoded(s, p + 3 * (n - 1), v, 3);
      SentStep(clens, n - 1);
    }
  }

  lemma AllSent(h: Header)
    requires h.Valid()
    ensures Sent(h.clens, h.hclen) == h.clens
  {
    forall i | 0 <= i < 19
      ensures Sent(h.clens, h.hclen)[i] == h.clens[i]
    {
      OrderIsPermutation(i);
    }
  }

  // ---- The run-length coded lists ----

  lemma AtFits(s: seq<bool>, p: nat, bits: seq<bool>)
    requires At(s, p, bits)
    ensures p + |bits| <= |s|
  {
  }

  lemma RunDecoded(clens: seq<nat>, r: Run, bl: seq<nat>, s: seq<bool>, p: nat)
    requires |clens| == 19 && Subscribed(clens, 7) && RunCoded(clens, r) && RunApplies(bl, r)
    requires At(s, p, RunBits(clens, r)) && Proper(Tree(clens, Alphabet(19)))
    ensures p + |RunBits(clens, r)| <= |s|
    ensures RunAt(s, p, Tree(clens, Alphabet(19)), bl)
         == Success((ApplyRun(bl, r), p + |RunBits(clens, r)|))
  {
    hide Tree, Decode, CodeBits, Lsb, At, RunAt, ApplyRun, Kraft, Subscribed, Alphabet, Proper;
    AtFits(s, p, RunBits(clens, r));
    AtConcat(s, p, CodeBits(clens, r.Symbol()), r.Extra());
    SymbolDecoded(clens, 7, 19, r.Symbol(), s, p);
    var p1 := p + clens[r.Symbol()];
    var p2 := p1 + |r.Extra()|;
    ExtraRead(r, s, p1, p2);
    RunIs(s, p, Tree(clens, Alphabet(19)), bl, r, p1, p2);
  }

  /** The extra bits of the run at `p1` are read as its number. */
  predicate ExtraReads(r: Run, s: seq<bool>, p1: nat, p2: nat) {
    match r
    case Length(_) => p2 == p1
    case Again(e) => ReadBitsAt(s, p1, 2) == Success((e, p2))
    case Zeros(e) => ReadBitsAt(s, p1, 3) == Success((e, p2))
    case ManyZeros(e) => ReadBitsAt(s, p1, 7) == Success((e, p2))
  }

  lemma ExtraRead(r: Run, s: seq<bool>, p1: nat, p2: nat)
    requires r.Valid() && At(s, p1, r.Extra()) && p2 == p1 + |r.Extra()|
    ensures ExtraReads(r, s, p1, p2)
  {
    assert Pow2(2) == 4 && Pow2(3) == 8 && Pow2(7) == 128;
    hide ReadBitsAt, Pow2, Lsb, At;
    match r
    case Length(_) =>
    case Again(e) => ExtraDecoded(s, p1, e, 2);
    case Zeros(e) => ExtraDecoded(s, p1, e, 3);
    case ManyZeros(e) => ExtraDecoded(s, p1, e, 7);
  }

  lemma RunIs(s: seq<bool>, p: nat, tree: Node, bl: seq<nat>, r: Run, p1: nat, p2: nat)
    requires p <= p1 <= |s| && Proper(tree) && RunApplies(bl, r)
    requires Decode(tree, s, p) == Success((r.Symbol(), p1)) && ExtraReads(r, s, p1, p2)
    ensures RunAt(s, p, tree, bl) == Success((ApplyRun(bl, r), p2))
  {
    hide Decode, ReadBitsAt, Runs, Pow2;
  }

  /** The last run, and none before it, makes the list `total` long or longer. */
  predicate Fills(bl: seq<nat>, runs: seq<Run>, total: nat)
    requires RunsApply(bl, runs)
    decreases |runs|
  {
    if runs == [] then |bl| >= total
    else |bl| < total && Fills(ApplyRun(bl, runs[0]), runs[1..], total)
  }

  lemma {:induction false} ExactFills(bl: seq<nat>, runs: seq<Run>)
    requires RunsApply(bl, runs)
    ensures Fills(bl, runs, |ApplyRuns(bl, runs)|)
    decreases |runs|
  {
    hide ApplyRun, RunApplies;
    if runs != [] {
      ExactFills(ApplyRun(bl, runs[0]), runs[1..]);
    }
  }

  lemma {:induction false} RunsDecoded(clens: seq<nat>, runs: seq<Run>, bl: seq<nat>, s: seq<bool>, p: nat, total: nat)
    requires |clens| == 19 && Subscribed(clens, 7) && Proper(Tree(clens, Alphabet(19)))
    requires AllRunsCoded(clens, runs) && RunsApply(bl, runs) && Fills(bl, runs, total)
    requires At(s, p, RunsBits(clens, runs))
    ensures LengthsAt(s, p, Tree(clens, Alphabet(19)), bl, total)
         == Success((ApplyRuns(bl, runs), p + |RunsBits(clens, runs)|))
    decreases |runs|
  {
    hide Tree, RunBits, RunAt, ApplyRun, RunApplies;
    if runs != [] {
      var first, rest := RunBits(clens, runs[0]), RunsBits(clens, runs[1..]);
      AtConcat(s, p, first, rest);
      RunDecoded(clens, runs[0], bl, s, p);
      RunsDecoded(clens, runs[1..], ApplyRun(bl, runs[0]), s, p + |first|, total);
    }
  }

  lemma CountsDecoded(h: Header, s: seq<bool>, p: nat)
    requires h.Valid() && At(s, p, h.CountBits())
    ensures CountsAt(s, p) == Success((h.hlit, h.hdist, h.hclen, p + 14))
  {
    hide Lsb, Pow2, Val, At;
    SmallPowers(5);
    SmallPowers(4);
    var b1, b2, b3 := Lsb(h.hlit - 257, 5), Lsb(h.hdist - 1, 5), Lsb(h.hclen - 4, 4);
    AtConcat(s, p, b1, b2 + b3);
    AtConcat(s, p + 5, b2, b3);
    ExtraDecoded(s, p, h.hlit - 257, 5);
    ExtraDecoded(s, p + 5, h.hdist - 1, 5);
    ExtraDecoded(s, p + 10, h.hclen - 4, 4);
  }

  lemma ListsDecoded(h: Header, s: seq<bool>, p: nat, p1: nat, p2: nat)
    requires h.Valid() && p1 == p + 3 * h.hclen && p2 == p1 + |RunsBits(h.clens, h.runs)|
    requires At(s, p, ClensBits(h.clens, h.hclen)) && At(s, p1, RunsBits(h.clens, h.runs))
    ensures p1 <= p2 <= |s| && ListsAt(s, p, h.hlit, h.hdist, h.hclen) == Success((h.Codes(), p2))
  {
    hide Tree, LengthsAt, ClensAt, Sent, Kraft, ClensBits, RunsBits, ApplyRuns, RunsApply, CodeBits;
    ClensDecoded(h.clens, s, p, h.hclen);
    AllSent(h);
    TreeProper(h.clens, Alphabet(19));
    ExactFills([], h.runs);
    RunsDecoded(h.clens, h.runs, [], s, p1, h.hlit + h.hdist);
  }

  lemma HeaderParts(h: Header, s: seq<bool>, p: nat)
    requires h.Valid() && At(s, p, h.Bits())
    ensures At(s, p, h.CountBits()) && At(s, p + 14, ClensBits(h.clens, h.hclen))
    ensures At(s, p + 14 + 3 * h.hclen, RunsBits(h.clens, h.runs))
    ensures p + |h.Bits()| == p + 14 + 3 * h.hclen + |RunsBits(h.clens, h.runs)| <= |s|
  {
    var clens, runs := ClensBits(h.clens, h.hclen), RunsBits(h.clens, h.runs);
    assert p + |h.Bits()| <= |s|;
    hide At, ClensBits, RunsBits, Lsb;
    AtConcat(s, p, h.CountBits(), clens + runs);
    AtConcat(s, p + 14, clens, runs);
  }

  /** The header is read back as the code lengths it declares. */
  lemma HeaderDecoded(h: Header, s: seq<bool>, p: nat)
    requires h.Valid() && At(s, p, h.Bits())
    ensures p + |h.Bits()| <= |s|
    ensures CodesAt(s, p) == Success((h.Codes(), p + |h.Bits()|))
  {
    hide At, CountsAt, ListsAt, CodesAt, ClensBits, RunsBits, Header.Codes, Header.Bits, Header.CountBits;
    HeaderParts(h, s, p);
    CountsDecoded(h, s, p);
    var p1 := p + 14 + 3 * h.hclen;
    var p2 := p1 + |RunsBits(h.clens, h.runs)|;
    ListsDecoded(h, s, p + 14, p1, p2);
    CodesIs(s, p, h.hlit, h.hdist, h.hclen, p + 14, h.Codes(), p2);
  }

  lemma CodesIs(s: seq<bool>, p: nat, hlit: nat, hdist: nat, hclen: nat, p1: nat, c: Codes, p2: nat)
    requires p <= p1 <= |s| && hclen <= 19
    requires CountsAt(s, p) == Success((hlit, hdist, hclen, p1))
    requires ListsAt(s, p1, hlit, hdist, hclen) == Success((c, p2))
    ensures CodesAt(s, p) == Success((c, p2))
  {
    hide CountsAt, ListsAt;
  }
}
