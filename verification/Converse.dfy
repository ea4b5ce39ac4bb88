/**
 The converse of what Streams proves: a payload the inflater accepts is a zlib
 stream for the bytes it returns, if each dynamic block in it has code lengths
 the format allows. So on such input the inflater accepts exactly the streams.
 */
module Converse {
  import opened Basics
  import opened Wrappers
  import opened Bits
  import opened Huffman
  import opened Canonical
  import opened Format
  import opened BitIO
  import opened InflateSpec
  import opened Symbols
  import opened Headers
  import opened Streams

  // ---- Symbols ----

  /** A leaf with a symbol after an insertion is the one inserted, or was one before. */
  lemma {:induction false} InsertLeaves(n: Node, path: seq<bool>, symbol: nat, q: seq<bool>, x: nat)
    requires Coded(Insert(n, path, symbol), q, x)
    ensures (q == path && x == symbol) || Coded(n, q, x)
    decreases |path|
  {
    if path != [] && q != [] && path[0] == q[0] {
      var child := if path[0] then n.right else n.left;
      InsertLeaves(child.GetOr(EMPTY), path[1..], symbol, q[1..], x);
      if q[1..] == path[1..] {
        assert [q[0]] + q[1..] == q && [path[0]] + path[1..] == path;
      }
    }
  }

  /** Every leaf of the tree is the code of a symbol. */
  lemma {:induction false} LeafIsACode(bl: seq<nat>, alphabet: seq<nat>, k: nat, q: seq<bool>, x: nat) returns (i: nat)
    requires k <= |bl| && Coded(TreeTo(bl, alphabet, k), q, x)
    ensures i < k && i < |alphabet| && Used(bl, i) && alphabet[i] == x && CodeBits(bl, i) == q
  {
    hide CodeBits;
    if k == 0 {
      i := 0;
      NoLeaves(q, x);
    } else {
      var t := TreeTo(bl, alphabet, k - 1);
      if bl[k - 1] != 0 && k - 1 < |alphabet| {
        InsertLeaves(t, CodeBits(bl, k - 1), alphabet[k - 1], q, x);
        if q == CodeBits(bl, k - 1) && x == alphabet[k - 1] {
          return k - 1;
        }
      }
      i := LeafIsACode(bl, alphabet, k - 1, q, x);
    }
  }

  lemma NoLeaves(q: seq<bool>, x: nat)
    ensures !Coded(EMPTY, q, x)
  {
    if q != [] {
      WalkEmpty(q);
    }
  }

  /** What is decoded is the leaf at the end of the bits that were used. */
  lemma {:induction false} DecodedPath(n: Node, s: seq<bool>, p: nat)
    requires p <= |s| && Decode(n, s, p).Success?
    ensures var (x, p1) := Decode(n, s, p).value;
            p <= p1 <= |s| && Coded(n, s[p..p1], x)
    decreases n
  {
    if Leaf(n) {
      assert s[p..p] == [];
    } else {
      var next := if s[p] then n.right else n.left;
      DecodedPath(next.value, s, p + 1);
      var p1 := Decode(n, s, p).value.1;
      assert s[p..p1][1..] == s[p + 1..p1];
    }
  }

  lemma SymbolRead(bl: seq<nat>, n: nat, s: seq<bool>, p: nat)
    requires p <= |s| && Decode(Tree(bl, Alphabet(n)), s, p).Success?
    ensures var (x, p1) := Decode(Tree(bl, Alphabet(n)), s, p).value;
            && x < n && Used(bl, x) && At(s, p, CodeBits(bl, x)) && p1 == p + bl[x] <= |s|
  {
    hide Decode, CodeBits;
    var (x, p1) := Decode(Tree(bl, Alphabet(n)), s, p).value;
    DecodedPath(Tree(bl, Alphabet(n)), s, p);
    var i := LeafIsACode(bl, Alphabet(n), |bl|, s[p..p1], x);
  }

  lemma BitsRead(s: seq<bool>, p: nat, n: nat)
    requires ReadBitsAt(s, p, n).Success?
    ensures var (v, p1) := ReadBitsAt(s, p, n).value;
            v < Pow2(n) && At(s, p, Lsb(v, n)) && p1 == p + n <= |s|
  {
    hide Lsb, Val, Pow2;
    LsbVal(s[p..p + n]);
  }

  // ---- Coded blocks ----

  /** A pair that was read is a token whose four parts stand in the stream. */
  lemma PairRead(c: Codes, s: seq<bool>, p: nat, out: seq<byte>, sym: nat, p1: nat) returns (t: Token)
    requires p <= p1 <= |s| && Proper(DistanceTree(c.distance)) && 256 < sym < 286
    requires Used(c.literal, sym) && At(s, p, CodeBits(c.literal, sym)) && p1 == p + c.literal[sym]
    requires PairAt(s, p1, sym, DistanceTree(c.distance), out).Success?
    ensures t.Pair? && Encodable(c, t) && Applies(out, t) && At(s, p, TokenBits(c, t))
    ensures PairAt(s, p1, sym, DistanceTree(c.distance), out).value == (Apply(out, t), p + |TokenBits(c, t)|)
  {
    hide Decode, Tree, CodeBits, Lsb, ReadBitsAt, Val, Pow2, Copy, At;
    var l := sym - 257;
    BitsRead(s, p1, LENGTH_EXTRA_BITS[l]);
    var (le, p2) := ReadBitsAt(s, p1, LENGTH_EXTRA_BITS[l]).value;
    SymbolRead(c.distance, 30, s, p2);
    var (d, p3) := Decode(DistanceTree(c.distance), s, p2).value;
    BitsRead(s, p3, DISTANCE_EXTRA_BITS[d]);
    var (de, p4) := ReadBitsAt(s, p3, DISTANCE_EXTRA_BITS[d]).value;
    t := Pair(l, le, d, de);
    var b1, b2 := CodeBits(c.literal, 257 + l), Lsb(le, LENGTH_EXTRA_BITS[l]);
    var b3, b4 := CodeBits(c.distance, d), Lsb(de, DISTANCE_EXTRA_BITS[d]);
    assert TokenBits(c, t) == b1 + (b2 + (b3 + b4));
    FourStand(s, p, b1, b2, b3, b4);
    PairMeans(c, s, p1, out, t, p2, p3, p4);
  }

  lemma PairMeans(c: Codes, s: seq<bool>, p1: nat, out: seq<byte>, t: Token, p2: nat, p3: nat, p4: nat)
    requires t.Pair? && t.Valid() && p1 <= p2 <= p3 <= p4 <= |s| && Proper(DistanceTree(c.distance))
    requires ReadBitsAt(s, p1, LENGTH_EXTRA_BITS[t.length]) == Success((t.lengthExtra, p2))
    requires Decode(DistanceTree(c.distance), s, p2) == Success((t.distance, p3))
    requires ReadBitsAt(s, p3, DISTANCE_EXTRA_BITS[t.distance]) == Success((t.distanceExtra, p4))
    requires PairAt(s, p1, 257 + t.length, DistanceTree(c.distance), out).Success?
    ensures Applies(out, t)
    ensures PairAt(s, p1, 257 + t.length, DistanceTree(c.distance), out) == Success((Apply(out, t), p4))
  {
    hide Decode, Tree, ReadBitsAt, Copy, Pow2, LengthAt, DistanceAt, PairAt, Token.Length, Token.Distance, DistanceTree;
    var dist := DistanceTree(c.distance);
    LengthIs(s, p1, t, p2);
    DistanceIs(s, p2, t, dist, p3, p4);
    NotTooFar(s, p1, 257 + t.length, dist, out, t.Length(), p2, t.Distance(), p4);
    DistanceIsPositive(t);
    PairIs(s, p1, t, dist, out, p2, p4);
  }

  lemma NotTooFar(
    s: seq<bool>, p: nat, sym: nat, dist: Node, out: seq<byte>, length: nat, p1: nat, distance: nat, p2: nat)
    requires sym > 256 && p <= p1 <= |s| && Proper(dist) && PairAt(s, p, sym, dist, out).Success?
    requires LengthAt(s, p, sym) == Success((length, p1)) && DistanceAt(s, p1, dist) == Success((distance, p2))
    ensures distance <= |out|
  {
    hide LengthAt, DistanceAt, Copy;
  }

  lemma DistanceIsPositive(t: Token)
    requires t.Pair? && t.Valid()
    ensures t.Distance() >= 1
  {
    DistanceTable(t.distance);
    hide Pow2;
  }

  lemma FourStand(s: seq<bool>, p: nat, a: seq<bool>, b: seq<bool>, c: seq<bool>, d: seq<bool>)
    requires At(s, p, a) && At(s, p + |a|, b) && At(s, p + |a| + |b|, c) && At(s, p + |a| + |b| + |c|, d)
    ensures At(s, p, a + (b + (c + d)))
  {
    hide At;
    AtConcat(s, p + |a| + |b|, c, d);
    AtConcat(s, p + |a|, b, c + d);
    AtConcat(s, p, a, b + (c + d));
  }

  /** A coded block that was read is a list of tokens and the end mark. */
  lemma {:induction false} BlockRead(c: Codes, s: seq<bool>, p: nat, out: seq<byte>, maxOut: nat) returns (tokens: seq<Token>)
    requires p <= |s| && CodedAt(s, p, c, out, maxOut).Success?
    ensures Used(c.literal, END_OF_BLOCK) && AllEncodable(c, tokens) && Expands(out, tokens)
    ensures At(s, p, BlockBits(c, tokens))
    ensures CodedAt(s, p, c, out, maxOut).value == (Expand(out, tokens), p + |BlockBits(c, tokens)|)
    decreases |s| - p
  {
    hide Decode, Tree, CodeBits, PairAt, At, TokenBits, Apply, Applies;
    TreeProper(c.literal, Alphabet(286));
    TreeProper(c.distance, Alphabet(30));
    SymbolRead(c.literal, 286, s, p);
    var (sym, p1) := Decode(LiteralTree(c.literal), s, p).value;
    if sym == 256 {
      tokens := [];
      assert BlockBits(c, tokens) == CodeBits(c.literal, END_OF_BLOCK);
    } else {
      var t;
      if sym <= 255 {
        t := Literal(sym);
        LiteralMeans(c, sym, out);
      } else {
        t := PairRead(c, s, p, out, sym, p1);
      }
      var p2 := p + |TokenBits(c, t)|;
      var rest := BlockRead(c, s, p2, Apply(out, t), maxOut);
      tokens := [t] + rest;
      TokenFirst(c, t, rest, out);
      AtConcat(s, p, TokenBits(c, t), BlockBits(c, rest));
    }
  }

  lemma LiteralMeans(c: Codes, v: nat, out: seq<byte>)
    requires v <= 255 && Used(c.literal, v)
    ensures Encodable(c, Literal(v)) && Applies(out, Literal(v))
    ensures TokenBits(c, Literal(v)) == CodeBits(c.literal, v) && Apply(out, Literal(v)) == out + [v]
  {
  }

  lemma TokenFirst(c: Codes, t: Token, rest: seq<Token>, out: seq<byte>)
    requires Encodable(c, t) && AllEncodable(c, rest) && Used(c.literal, END_OF_BLOCK)
    requires Applies(out, t) && Expands(Apply(out, t), rest)
    ensures AllEncodable(c, [t] + rest) && Expands(out, [t] + rest)
    ensures Expand(out, [t] + rest) == Expand(Apply(out, t), rest)
    ensures BlockBits(c, [t] + rest) == TokenBits(c, t) + BlockBits(c, rest)
  {
    hide TokenBits, CodeBits, Apply, Applies, Encodable;
    assert ([t] + rest)[1..] == rest;
    Associative(TokenBits(c, t), TokensBits(c, rest), CodeBits(c.literal, END_OF_BLOCK));
  }

  // ---- The header of a dynamic block ----

  /** Code lengths of lengths sent later do not matter to those sent so far. */
  lemma {:induction false} ClensBitsOnly(a: seq<nat>, b: seq<nat>, n: nat)
    requires n <= 19 == |a| == |b|
    requires forall i :: 0 <= i < n ==> a[CODE_LENGTH_CODES_ORDER[i]] == b[CODE_LENGTH_CODES_ORDER[i]]
    ensures ClensBits(a, n) == ClensBits(b, n)
  {
    if n > 0 {
      ClensBitsOnly(a, b, n - 1);
    }
  }

  lemma {:induction false} ClensRead(s: seq<bool>, p: nat, n: nat)
    requires n <= 19 && p <= |s| && ClensAt(s, p, n).Success?
    ensures var (clens, p1) := ClensAt(s, p, n).value;
            && At(s, p, ClensBits(clens, n)) && p1 == p + 3 * n
            && forall i :: n <= i < 19 ==> clens[CODE_LENGTH_CODES_ORDER[i]] == 0
  {
    hide Lsb, Val, At, ClensBits, ReadBitsAt;
    if n == 0 {
      NoClensStand(s, p);
    } else {
      ClensRead(s, p, n - 1);
      var (lengths, p1) := ClensAt(s, p, n - 1).value;
      BitsRead(s, p1, 3);
      var v := ReadBitsAt(s, p1, 3).value.0;
      OrderApart(n - 1);
      ClensStand(s, p, lengths, n, v);
    }
  }

  lemma NoClensStand(s: seq<bool>, p: nat)
    requires p <= |s|
    ensures At(s, p, ClensBits(Runs(19, 0), 0))
  {
  }

  lemma ClensStand(s: seq<bool>, p: nat, lengths: seq<nat>, n: nat, v: nat)
    requires 0 < n <= 19 == |lengths| && At(s, p, ClensBits(lengths, n - 1)) && At(s, p + 3 * (n - 1), Lsb(v, 3))
    ensures At(s, p, ClensBits(lengths[CODE_LENGTH_CODES_ORDER[n - 1] := v], n))
  {
    hide At, Lsb;
    var clens := lengths[CODE_LENGTH_CODES_ORDER[n - 1] := v];
    OrderApart(n - 1);
    ClensBitsOnly(clens, lengths, n - 1);
    AtConcat(s, p, ClensBits(lengths, n - 1), Lsb(v, 3));
  }

  lemma OrderApart(k: nat)
    requires k < 19
    ensures forall i :: 0 <= i < 19 && i != k ==> CODE_LENGTH_CODES_ORDER[i] != CODE_LENGTH_CODES_ORDER[k]
  {
    forall i | 0 <= i < 19 && i != k
      ensures CODE_LENGTH_CODES_ORDER[i] != CODE_LENGTH_CODES_ORDER[k]
    {
      OrderIsPermutation(i);
      OrderIsPermutation(k);
    }
  }

  /** A run that was read, with its extra bits. */
  lemma RunRead(clens: seq<nat>, s: seq<bool>, p: nat, bl: seq<nat>) returns (r: Run)
    requires p <= |s| && Proper(Tree(clens, Alphabet(19)))
    requires RunAt(s, p, Tree(clens, Alphabet(19)), bl).Success?
    ensures RunCoded(clens, r) && RunApplies(bl, r) && At(s, p, RunBits(clens, r))
    ensures RunAt(s, p, Tree(clens, Alphabet(19)), bl).value == (ApplyRun(bl, r), p + |RunBits(clens, r)|)
  {
    hide Decode, Tree, CodeBits, Lsb, ReadBitsAt, Val, At, Runs;
    SymbolRead(clens, 19, s, p);
    var (sym, p1) := Decode(Tree(clens, Alphabet(19)), s, p).value;
    r := RunOf(s, p1, sym);
    RunStands(clens, r, s, p, p1);
    RunMeans(Tree(clens, Alphabet(19)), s, p, bl, r, p1);
  }

  /** How many extra bits follow the symbol of a run. */
  function ExtraWidth(sym: nat): nat {
    if sym == 16 then 2 else if sym == 17 then 3 else if sym == 18 then 7 else 0
  }

  lemma RunOf(s: seq<bool>, p1: nat, sym: nat) returns (r: Run)
    requires sym < 19 && p1 <= |s| && (sym >= 16 ==> ReadBitsAt(s, p1, ExtraWidth(sym)).Success?)
    ensures r.Valid() && r.Symbol() == sym && At(s, p1, r.Extra()) && |r.Extra()| == ExtraWidth(sym)
    ensures ExtraReads(r, s, p1, p1 + ExtraWidth(sym))
  {
    BitsRead(s, p1, ExtraWidth(sym));
    assert Pow2(2) == 4 && Pow2(3) == 8 && Pow2(7) == 128;
    var v := ReadBitsAt(s, p1, ExtraWidth(sym)).value.0;
    r := if sym == 16 then Again(v) else if sym == 17 then Zeros(v) else if sym == 18 then ManyZeros(v) else Length(sym);
    hide Lsb, Val, Pow2;
  }

  lemma RunStands(clens: seq<nat>, r: Run, s: seq<bool>, p: nat, p1: nat)
    requires RunCoded(clens, r) && At(s, p, CodeBits(clens, r.Symbol())) && p1 == p + clens[r.Symbol()]
    requires At(s, p1, r.Extra())
    ensures At(s, p, RunBits(clens, r)) && |RunBits(clens, r)| == clens[r.Symbol()] + |r.Extra()|
  {
    hide At, CodeBits, Lsb;
    AtConcat(s, p, CodeBits(clens, r.Symbol()), r.Extra());
  }

  lemma RunMeans(tree: Node, s: seq<bool>, p: nat, bl: seq<nat>, r: Run, p1: nat)
    requires p <= p1 <= |s| && Proper(tree) && r.Valid()
    requires Decode(tree, s, p) == Success((r.Symbol(), p1)) && ExtraReads(r, s, p1, p1 + |r.Extra()|)
    requires RunAt(s, p, tree, bl).Success?
    ensures RunApplies(bl, r) && RunAt(s, p, tree, bl) == Success((ApplyRun(bl, r), p1 + |r.Extra()|))
  {
    hide Decode, ReadBitsAt, Runs, Lsb;
  }

  lemma {:induction false} LengthsRead(clens: seq<nat>, s: seq<bool>, p: nat, bl: seq<nat>, total: nat)
    returns (runs: seq<Run>)
    requires p <= |s| && Proper(Tree(clens, Alphabet(19)))
    requires LengthsAt(s, p, Tree(clens, Alphabet(19)), bl, total).Success?
    ensures AllRunsCoded(clens, runs) && RunsApply(bl, runs) && At(s, p, RunsBits(clens, runs))
    ensures LengthsAt(s, p, Tree(clens, Alphabet(19)), bl, total).value
         == (ApplyRuns(bl, runs), p + |RunsBits(clens, runs)|)
    decreases |s| - p
  {
    hide Tree, RunAt, RunBits, ApplyRun, RunApplies, RunCoded;
    if |bl| >= total {
      runs := [];
      assert RunsBits(clens, runs) == [];
    } else {
      var r := RunRead(clens, s, p, bl);
      var rest := LengthsRead(clens, s, p + |RunBits(clens, r)|, ApplyRun(bl, r), total);
      runs := [r] + rest;
      assert runs[1..] == rest;
      AtConcat(s, p, RunBits(clens, r), RunsBits(clens, rest));
    }
  }

  /**
   The code lengths of the dynamic block at `p` are ones the format allows: no
   Kraft sum above 1, and no run that goes past the last length. The source
   checks neither.
   */
  predicate Lawful(s: seq<bool>, p: nat)
    requires p <= |s| && CodesAt(s, p).Success?
  {
    var (hlit, hdist, hclen, p1) := CountsAt(s, p).value;
    var c := CodesAt(s, p).value.0;
    && Subscribed(ClensAt(s, p1, hclen).value.0, 7)
    && Subscribed(c.literal, 15) && Subscribed(c.distance, 15)
    && |c.literal| + |c.distance| == hlit + hdist
  }

  lemma CountsRead(s: seq<bool>, p: nat)
    requires p <= |s| && CountsAt(s, p).Success?
    ensures var (hlit, hdist, hclen, p1) := CountsAt(s, p).value;
            && 257 <= hlit <= 288 && 1 <= hdist <= 32 && 4 <= hclen <= 19 && p1 == p + 14
            && At(s, p, Lsb(hlit - 257, 5) + (Lsb(hdist - 1, 5) + Lsb(hclen - 4, 4)))
  {
    SmallPowers(5);
    SmallPowers(4);
    hide Lsb, Val, Pow2, At, ReadBitsAt;
    BitsRead(s, p, 5);
    BitsRead(s, p + 5, 5);
    BitsRead(s, p + 10, 4);
    var (hlit, hdist, hclen, p1) := CountsAt(s, p).value;
    AtConcat(s, p + 5, Lsb(hdist - 1, 5), Lsb(hclen - 4, 4));
    AtConcat(s, p, Lsb(hlit - 257, 5), Lsb(hdist - 1, 5) + Lsb(hclen - 4, 4));
  }

  lemma HeaderRead(s: seq<bool>, p: nat) returns (h: Header)
    requires p <= |s| && CodesAt(s, p).Success? && Lawful(s, p)
    ensures h.Valid() && At(s, p, h.Bits()) && CodesAt(s, p).value == (h.Codes(), p + |h.Bits()|)
  {
    hide At, Tree, Kraft, CountsAt, ClensAt, LengthsAt, ClensBits, RunsBits, ApplyRuns, RunsApply, AllRunsCoded, Lsb;
    CountsRead(s, p);
    var (hlit, hdist, hclen, p1) := CountsAt(s, p).value;
    ClensRead(s, p1, hclen);
    var (clens, p2) := ClensAt(s, p1, hclen).value;
    TreeProper(clens, Alphabet(19));
    var runs := LengthsRead(clens, s, p2, [], hlit + hdist);
    h := Header(hlit, hdist, hclen, clens, runs);
    AtConcat(s, p1, ClensBits(clens, hclen), RunsBits(clens, runs));
    AtConcat(s, p, h.CountBits(), ClensBits(clens, hclen) + RunsBits(clens, runs));
  }

  // ---- Stored blocks ----

  lemma {:induction false} BytesRead(s: seq<bool>, p: nat, n: nat)
    requires p + 8 * n <= |s|
    ensures At(s, p, BitsOf(BytesAt(s, p, n)))
  {
    hide Val, Lsb, BitsOf, At, BytesAt;
    if n == 0 {
      NoBytesStand(s, p);
    } else {
      BytesRead(s, p, n - 1);
      var b := LastByte(s, p, n);
      BitsOfSnoc(BytesAt(s, p, n - 1), b);
      AtConcat(s, p, BitsOf(BytesAt(s, p, n - 1)), Lsb(b, 8));
    }
  }

  lemma NoBytesStand(s: seq<bool>, p: nat)
    requires p <= |s|
    ensures At(s, p, BitsOf(BytesAt(s, p, 0)))
  {
    assert BitsOf([]) == [];
  }

  lemma LastByte(s: seq<bool>, p: nat, n: nat) returns (b: byte)
    requires n > 0 && p + 8 * n <= |s|
    ensures BytesAt(s, p, n) == BytesAt(s, p, n - 1) + [b] && At(s, p + 8 * (n - 1), Lsb(b, 8))
  {
    hide Val, Lsb, Pow2;
    Pow2OfBytes();
    b := Val(s[p + 8 * (n - 1)..p + 8 * n]);
    LsbVal(s[p + 8 * (n - 1)..p + 8 * n]);
  }

  lemma TwoRead(s: seq<bool>, p: nat)
    requires ReadBytesAt(s, p, 2).Success?
    ensures var (v, p1) := ReadBytesAt(s, p, 2).value;
            v < 65536 && At(s, AlignUp(p), Lsb(v, 16)) && p1 == AlignUp(p) + 16 <= |s|
  {
    hide Lsb, Val, Pow2, ReadBitsAt;
    BitsRead(s, AlignUp(p), 16);
    Pow2OfBytes();
  }

  lemma StoredRead(s: seq<bool>, p: nat, out: seq<byte>, maxOut: nat) returns (b: Block)
    requires p <= |s| && StoredAt(s, p, out, maxOut).Success?
    ensures b.Stored? && b.Valid(out) && b.Stands(out, s, p)
    ensures StoredAt(s, p, out, maxOut).value == (b.Output(out), b.End(out, p))
  {
    hide ReadBytesAt, Lsb, BitsOf, BytesAt, At, AlignUp;
    TwoRead(s, p);
    var (len, p1) := ReadBytesAt(s, p, 2).value;
    TwoRead(s, p1);
    var nlen := ReadBytesAt(s, p1, 2).value.0;
    AlignedTwice(p);
    BytesRead(s, AlignUp(p) + 32, len);
    var data := BytesAt(s, AlignUp(p) + 32, len);
    b := Stored(nlen, data);
    AtConcat(s, AlignUp(p) + 16, Lsb(nlen, 16), BitsOf(data));
    AtConcat(s, AlignUp(p), Lsb(len, 16), Lsb(nlen, 16) + BitsOf(data));
  }

  // ---- Blocks ----

  lemma OneBlockRead(s: seq<bool>, p: nat, btype: nat, out: seq<byte>, maxOut: nat) returns (b: Block)
    requires p <= |s| && BlockAt(s, p, btype, out, maxOut).Success?
    requires btype == 2 ==> Lawful(s, p)
    ensures b.Type() == btype && b.Valid(out) && b.Stands(out, s, p)
    ensures BlockAt(s, p, btype, out, maxOut).value == (b.Output(out), b.End(out, p))
  {
    hide StoredAt, CodedAt, CodesAt, At, BlockBits, Expand, Expands, AllEncodable, Lawful, Header.Valid, Header.Bits,
      Header.Codes, Lsb;
    if btype == 0 {
      b := StoredRead(s, p, out, maxOut);
    } else if btype == 1 {
      var tokens := BlockRead(FIXED, s, p, out, maxOut);
      b := Fixed(tokens);
    } else {
      b := DynamicRead(s, p, out, maxOut);
    }
  }

  lemma DynamicRead(s: seq<bool>, p: nat, out: seq<byte>, maxOut: nat) returns (b: Block)
    requires p <= |s| && DynamicAt(s, p, out, maxOut).Success? && Lawful(s, p)
    ensures b.Dynamic? && b.Valid(out) && b.Stands(out, s, p)
    ensures DynamicAt(s, p, out, maxOut).value == (b.Output(out), b.End(out, p))
  {
    hide CodedAt, CodesAt, At, BlockBits, Expand, Expands, AllEncodable, Header.Valid, Header.Bits, Header.Codes;
    var h := HeaderRead(s, p);
    LawfulCodes(s, p);
    var p1 := CodesAt(s, p).value.1;
    var tokens := BlockRead(h.Codes(), s, p1, out, maxOut);
    b := Dynamic(h, tokens);
    AtConcat(s, p, h.Bits(), BlockBits(h.Codes(), tokens));
  }

  lemma LawfulCodes(s: seq<bool>, p: nat)
    requires p <= |s| && CodesAt(s, p).Success? && Lawful(s, p)
    ensures Subscribed(CodesAt(s, p).value.0.literal, 15) && Subscribed(CodesAt(s, p).value.0.distance, 15)
  {
    hide CodesAt, CountsAt, ClensAt, Kraft;
  }

  /** Every dynamic block the inflater reads has code lengths the format allows. */
  predicate AllLawful(s: seq<bool>, p: nat, out: seq<byte>, maxOut: nat)
    requires p <= |s| && BlocksAt(s, p, out, maxOut).Success?
    decreases |s| - p
  {
    var (final, p1) := ReadBitAt(s, p).value;
    var (btype, p2) := ReadBitsAt(s, p1, 2).value;
    var (out', p3) := BlockAt(s, p2, btype, out, maxOut).value;
    && (btype == 2 ==> Lawful(s, p2))
    && (!final ==> AllLawful(s, p3, out', maxOut))
  }

  lemma {:induction false} BlocksRead(s: seq<bool>, p: nat, out: seq<byte>, maxOut: nat) returns (blocks: seq<Block>)
    requires p <= |s| && BlocksAt(s, p, out, maxOut).Success? && AllLawful(s, p, out, maxOut)
    ensures BlocksValid(out, blocks) && BlocksStand(out, s, p, blocks)
    ensures BlocksAt(s, p, out, maxOut).value == (BlocksOutput(out, blocks), BlocksEnd(out, p, blocks))
    decreases |s| - p
  {
    hide BlockAt, Lawful, Block.Valid, Block.Stands, Block.Output, Block.End, Lsb, Val;
    var (final, p1) := ReadBitAt(s, p).value;
    var (btype, p2) := ReadBitsAt(s, p1, 2).value;
    BitsRead(s, p1, 2);
    MarkStands(s, p, final, btype);
    var b := OneBlockRead(s, p2, btype, out, maxOut);
    if final {
      blocks := [b];
    } else {
      var rest := BlocksRead(s, b.End(out, p2), b.Output(out), maxOut);
      blocks := [b] + rest;
      assert blocks[1..] == rest;
    }
  }

  lemma MarkStands(s: seq<bool>, p: nat, final: bool, btype: nat)
    requires p < |s| && s[p] == final && At(s, p + 1, Lsb(btype, 2))
    ensures At(s, p, [final] + Lsb(btype, 2))
  {
    AtConcat(s, p, [final], Lsb(btype, 2));
    hide Lsb;
  }

  // ---- The zlib wrapping ----

  lemma SwapTwice(v: nat)
    requires v < 0x1_0000_0000
    ensures SwapBytes(SwapBytes(v)) == v
  {
    var a, b, c, d := v % 256, v / 256 % 256, v / 0x1_0000 % 256, v / 0x100_0000 % 256;
    Digits(v);
    Swapped(a, b, c, d);
    Swapped(d, c, b, a);
    hide SwapBytes;
  }

  lemma TrailerRead(s: seq<bool>, p: nat, sum: nat)
    requires sum < 0x1_0000_0000 && ReadBytesAt(s, p, 4).Success?
    requires SwapBytes(ReadBytesAt(s, p, 4).value.0) == sum
    ensures At(s, AlignUp(p), BitsOf(BigEndian(sum)))
  {
    hide SwapBytes, BitsOf, Val, BigEndian, AlignUp, Lsb;
    var v := ReadBytesAt(s, p, 4).value.0;
    FourRead(s, p);
    SwapTwice(v);
    var bits := BitsOf(BigEndian(sum));
    ValOfSum(sum);
    SwapTwice(Val(bits));
    SwappedSum(sum);
    LsbVal(bits);
  }

  lemma ValOfSum(sum: nat)
    requires sum < 0x1_0000_0000
    ensures Val(BitsOf(BigEndian(sum))) < 0x1_0000_0000
  {
    BytesOfSum(sum);
    var b := BigEndian(sum);
    hide BitsOf, Val, BigEndian;
    FourBytes(b[0], b[1], b[2], b[3]);
  }

  lemma FourRead(s: seq<bool>, p: nat)
    requires ReadBytesAt(s, p, 4).Success?
    ensures var v := ReadBytesAt(s, p, 4).value.0; v < 0x1_0000_0000 && At(s, AlignUp(p), Lsb(v, 32))
  {
    hide Lsb, Val, Pow2, ReadBitsAt;
    BitsRead(s, AlignUp(p), 32);
    Pow2OfBytes();
  }

  /** The dynamic blocks of this payload, as far as it is read, have code lengths the format allows. */
  predicate LawfulPayload(z: seq<byte>, maxOut: nat) {
    |z| >= 2 && BlocksAt(BitsOf(z), 16, [], maxOut).Success? ==> AllLawful(BitsOf(z), 16, [], maxOut)
  }

  /** A payload the inflater accepts is a zlib stream for what it returns. */
  lemma InflatedIsAStream(z: seq<byte>, data: seq<byte>, maxOut: nat)
    requires Inflate(z, maxOut) == Success(data) && LawfulPayload(z, maxOut)
    ensures IsZlib(z, data)
  {
    hide BlocksAt, AllLawful, BitsOf, ReadBytesAt, SwapBytes, Adler32, BlocksValid, BlocksStand, BlocksOutput, BlocksEnd;
    var s := BitsOf(z);
    var blocks := BlocksRead(s, 16, [], maxOut);
    var p := BlocksAt(s, 16, [], maxOut).value.1;
    TrailerRead(s, p, Adler32(data));
    HeaderTaken(z);
    assert IsZlibOf(z, data, blocks);
    hide IsHeader, CheckHeader;
  }

  // ---- A stream has lawful lengths ----

  lemma HeaderIsLawful(h: Header, s: seq<bool>, p: nat)
    requires h.Valid() && h.Codes().Valid() && At(s, p, h.Bits())
    ensures p <= |s| && CodesAt(s, p).Success? && Lawful(s, p)
  {
    hide At, CountsAt, ClensAt, CodesAt, Sent, Kraft, ClensBits, RunsBits, ApplyRuns, RunsApply, Header.Bits;
    HeaderParts(h, s, p);
    CountsDecoded(h, s, p);
    ClensDecoded(h.clens, s, p + 14, h.hclen);
    AllSent(h);
    HeaderDecoded(h, s, p);
  }

  lemma BlockIsLawful(b: Block, out: seq<byte>, s: seq<bool>, p: nat)
    requires b.Dynamic? && b.Valid(out) && b.Stands(out, s, p)
    ensures p <= |s| && CodesAt(s, p).Success? && Lawful(s, p)
  {
    hide At, Lawful, CodesAt, BlockBits, Header.Valid, Header.Bits, Expands, AllEncodable, Codes.Valid;
    DynamicParts(b, out, s, p);
    HeaderIsLawful(b.header, s, p);
  }

  lemma {:induction false} BlocksAreLawful(blocks: seq<Block>, out: seq<byte>, s: seq<bool>, p: nat, maxOut: nat)
    requires BlocksValid(out, blocks) && BlocksStand(out, s, p, blocks)
    requires p <= |s| && BlocksAt(s, p, out, maxOut).Success?
    ensures AllLawful(s, p, out, maxOut)
    decreases |blocks|
  {
    hide Block.Valid, Block.Stands, Block.Output, Block.End, BlockAt, Lawful, ReadBitAt, ReadBitsAt, Lsb;
    var b := blocks[0];
    BlockHeaderDecoded(|blocks| == 1, b.Type(), s, p);
    OneBlockDecoded(b, out, s, p + 3, maxOut);
    if b.Dynamic? {
      BlockIsLawful(b, out, s, p + 3);
    }
    if |blocks| > 1 {
      BlocksAreLawful(blocks[1..], b.Output(out), s, b.End(out, p + 3), maxOut);
    }
  }

  lemma StreamIsLawful(z: seq<byte>, data: seq<byte>, maxOut: nat)
    requires IsZlib(z, data)
    ensures LawfulPayload(z, maxOut)
  {
    hide BlocksAt, AllLawful, BlocksValid, BlocksStand, BlocksOutput, BlocksEnd, At;
    var blocks :| IsZlibOf(z, data, blocks);
    if |z| >= 2 && BlocksAt(BitsOf(z), 16, [], maxOut).Success? {
      BlocksAreLawful(blocks, [], BitsOf(z), 16, maxOut);
    }
  }

  /**
   Of any payload: it is a zlib stream for bytes that fit under the ceiling exactly
   when the inflater accepts it for them and its dynamic blocks have code lengths
   the format allows. What the inflater takes beyond the streams is there only.
   */
  lemma InflatesExactlyTheStreams(z: seq<byte>, data: seq<byte>, maxOut: nat)
    ensures IsZlib(z, data) && |data| <= maxOut <==> Inflate(z, maxOut) == Success(data) && LawfulPayload(z, maxOut)
  {
    hide IsZlib, LawfulPayload, Inflate;
    if IsZlib(z, data) {
      InflatesEveryStream(z, data, maxOut);
      StreamIsLawful(z, data, maxOut);
    }
    if Inflate(z, maxOut) == Success(data) && LawfulPayload(z, maxOut) {
      InflatedIsAStream(z, data, maxOut);
    }
  }
}
