/** What the decoder refuses a stream with. */
module ZlibErrors {
  import opened Wrappers

  datatype Error =
    | EndOfData
    | InvalidCm | InvalidCinfo | HeaderChecksum | PresetDictionary | AdlerMismatch
    | InvalidBtype
    | TooBig
    | InvalidHuffmanCode | NoSymbolFound
    | InvalidLengthSymbol | InvalidDistanceSymbol | DistanceTooLarge
    | NoPreviousCodeLength | InvalidSymbol

  type Decoded<T> = Result<T, Error>
}

/**
 Huffman trees as values: a tree owns its children, so `insert` through a
 mutable cursor is the same as rebuilding the path it walks.
 */
module Huffman {
  import opened Wrappers
  import opened Bits
  import opened ZlibErrors

  datatype Node = Node(symbol: Option<nat>, left: Option<Node>, right: Option<Node>)

  const EMPTY := Node(None, None, None)

  predicate Leaf(n: Node) {
    n.left.None? && n.right.None?
  }

  /** The tree after `insert(codeword, |path|, symbol)`, `path` being the codeword's bits. */
  function Insert(n: Node, path: seq<bool>, symbol: nat): Node
    decreases |path|
  {
    if path == [] then n.(symbol := Some(symbol))
    else if path[0] then n.(right := Some(Insert(n.right.GetOr(EMPTY), path[1..], symbol)))
    else n.(left := Some(Insert(n.left.GetOr(EMPTY), path[1..], symbol)))
  }

  /** The symbol at position `p` of the stream, and the position after it. */
  function Decode(n: Node, s: seq<bool>, p: nat): (r: Decoded<(nat, nat)>)
    ensures r.Success? ==> p <= r.value.1 && (p <= |s| ==> r.value.1 <= |s|)
    ensures r.Success? && !Leaf(n) ==> p < r.value.1
    decreases n
  {
    if Leaf(n) then
      if n.symbol.Some? then Success((n.symbol.value, p)) else Failure(NoSymbolFound)
    else if p >= |s| then Failure(EndOfData)
    else
      var next := if s[p] then n.right else n.left;
      if next.None? then Failure(InvalidHuffmanCode) else Decode(next.value, s, p + 1)
  }

  /** The node `path` leads to. */
  function Walk(n: Node, path: seq<bool>): Option<Node>
    decreases |path|
  {
    if path == [] then Some(n)
    else
      var next := if path[0] then n.right else n.left;
      if next.None? then None else Walk(next.value, path[1..])
  }

  predicate Prefix(a: seq<bool>, b: seq<bool>) {
    |a| <= |b| && b[..|a|] == a
  }

  predicate Comparable(a: seq<bool>, b: seq<bool>) {
    Prefix(a, b) || Prefix(b, a)
  }

  /** `path` is a complete code for `symbol`. */
  predicate Coded(n: Node, path: seq<bool>, symbol: nat) {
    var w := Walk(n, path);
    w.Some? && Leaf(w.value) && w.value.symbol == Some(symbol)
  }

  lemma {:induction false} WalkEmpty(path: seq<bool>)
    requires path != []
    ensures Walk(EMPTY, path) == None
  {
    assert path[0] || !path[0];
  }

  lemma {:induction false} InsertCodes(n: Node, path: seq<bool>, symbol: nat)
    requires Walk(n, path) == None
    ensures Coded(Insert(n, path, symbol), path, symbol)
    decreases |path|
  {
    if path != [] {
      var child := if path[0] then n.right else n.left;
      if child.Some? {
        InsertCodes(child.value, path[1..], symbol);
      } else {
        InsertFresh(path[1..], symbol);
      }
    }
  }

  lemma {:induction false} InsertFresh(path: seq<bool>, symbol: nat)
    ensures Coded(Insert(EMPTY, path, symbol), path, symbol)
    decreases |path|
  {
    if path != [] {
      InsertFresh(path[1..], symbol);
    }
  }

  lemma TailIncomparable(a: seq<bool>, b: seq<bool>)
    requires a != [] && b != [] && a[0] == b[0]
    ensures Prefix(a[1..], b[1..]) ==> Prefix(a, b)
  {
    if Prefix(a[1..], b[1..]) {
      assert b[..|a|] == [b[0]] + b[1..][..|a| - 1];
    }
  }

  lemma {:induction false} InsertKeeps(n: Node, path: seq<bool>, symbol: nat, q: seq<bool>)
    requires !Comparable(path, q)
    ensures Walk(Insert(n, path, symbol), q) == Walk(n, q)
    decreases |path|
  {
    if path[0] == q[0] {
      TailIncomparable(path, q);
      TailIncomparable(q, path);
      var child := if path[0] then n.right else n.left;
      InsertKeeps(child.GetOr(EMPTY), path[1..], symbol, q[1..]);
      if child.None? {
        WalkEmpty(q[1..]);
      }
    }
  }

  /** A coded symbol is read back from its own bits, whatever follows them. */
  lemma {:induction false} DecodeCoded(n: Node, path: seq<bool>, symbol: nat, s: seq<bool>, p: nat)
    requires Coded(n, path, symbol) && At(s, p, path)
    ensures Decode(n, s, p) == Success((symbol, p + |path|))
    decreases |path|
  {
    if path != [] {
      assert s[p] == path[0];
      var child := if path[0] then n.right else n.left;
      assert s[p + 1..p + |path|] == s[p..p + |path|][1..];
      DecodeCoded(child.value, path[1..], symbol, s, p + 1);
    }
  }
}
