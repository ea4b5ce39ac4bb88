/**
 The order of service by rank, donors below others and early below late. It is
 given twice, as a sorted list of indices and as repeated removal of the entry of
 least rank, and the two agree.
 */
module ServeOrder {
  import opened Basics
  import opened Wrappers

  /** A file a peer asked for and waits for; `arrival` is the number it was given on asking. */
  datatype Queued = Queued(
    downloader: string, virtualPath: string, realPath: string, size: nat, privileged: bool, arrival: nat)

  /** `a`'s rank is below `b`'s: a donor before anyone else, then the earlier arrival. */
  predicate RankBelow(a: Queued, b: Queued) {
    (a.privileged && !b.privileged) || (a.privileged == b.privileged && a.arrival < b.arrival)
  }

  /** Entry `i` comes before entry `j`: by rank, and by position among equals. */
  predicate Before(queue: seq<Queued>, i: nat, j: nat)
    requires i < |queue| && j < |queue|
  {
    RankBelow(queue[i], queue[j]) || (!RankBelow(queue[j], queue[i]) && i < j)
  }

  // ---- As a sorted list of indices ----

  predicate InRange(order: seq<nat>, n: nat) {
    forall a :: 0 <= a < |order| ==> order[a] < n
  }

  predicate NoRepeats(order: seq<nat>) {
    forall a, b :: 0 <= a < b < |order| ==> order[a] != order[b]
  }

  /** All indices, each once, each before the next. */
  predicate IsServeOrder(queue: seq<Queued>, order: seq<nat>) {
    && |order| == |queue| && InRange(order, |queue|) && NoRepeats(order)
    && forall a, b :: 0 <= a < b < |order| ==> Before(queue, order[a], order[b])
  }

  /** `serve_order`: a stable sort of the indices by rank. */
  method ServeOrder(queue: seq<Queued>) returns (order: seq<nat>)
    ensures IsServeOrder(queue, order)
  {
    order := [];
    for i := 0 to |queue|
      invariant |order| == i && InRange(order, i) && NoRepeats(order)
      invariant forall a, b :: 0 <= a < b < |order| ==> Before(queue, order[a], order[b])
    {
      var at: nat := |order|;
      while at > 0 && RankBelow(queue[i], queue[order[at - 1]])
        invariant at <= |order|
        invariant forall a :: at <= a < |order| ==> RankBelow(queue[i], queue[order[a]])
      {
        at := at - 1;
      }
      InsertSorted(queue, order, i, at);
      order := order[..at] + [i] + order[at..];
    }
  }

  lemma InsertSorted(queue: seq<Queued>, order: seq<nat>, i: nat, at: nat)
    requires i < |queue| && |order| == i && InRange(order, i) && NoRepeats(order) && at <= |order|
    requires forall a, b :: 0 <= a < b < |order| ==> Before(queue, order[a], order[b])
    requires forall a :: at <= a < |order| ==> RankBelow(queue[i], queue[order[a]])
    requires at > 0 ==> !RankBelow(queue[i], queue[order[at - 1]])
    ensures var o := order[..at] + [i] + order[at..];
            && InRange(o, i + 1) && NoRepeats(o)
            && forall a, b :: 0 <= a < b < |o| ==> Before(queue, o[a], o[b])
  {
    var o := order[..at] + [i] + order[at..];
    forall a | 0 <= a < at
      ensures Before(queue, order[a], i)
    {
      if a < at - 1 {
        assert Before(queue, order[a], order[at - 1]);
      }
    }
    forall a, b | 0 <= a < b < |o|
      ensures o[a] != o[b] && Before(queue, o[a], o[b])
    {
      if a < at {
        assert o[a] == order[a];
      } else if a > at {
        assert o[a] == order[a - 1];
      }
      if b < at {
        assert o[b] == order[b];
      } else if b > at {
        assert o[b] == order[b - 1];
      }
    }
  }

  /** `next_to_serve`: the first entry of the lowest rank. */
  method NextToServe(queue: seq<Queued>) returns (next: Option<nat>)
    ensures next == if queue == [] then None else Some(Next(queue))
  {
    if queue == [] {
      return None;
    }
    var best := 0;
    for i := 1 to |queue|
      invariant best < i && forall j :: 0 <= j < i && j != best ==> Before(queue, best, j)
    {
      if RankBelow(queue[i], queue[best]) {
        forall j | 0 <= j < i
          ensures Before(queue, i, j)
        {
          assert j != best ==> Before(queue, best, j);
        }
        best := i;
      }
    }
    NextIsUnique(queue, best);
    next := Some(best);
  }

  // ---- As repeated removal ----

  lemma NextExtends(queue: seq<Queued>, front: seq<Queued>, n: nat, i: nat)
    requires |queue| == n + 1 && front == queue[..n] && i < n
    requires forall j :: 0 <= j < n && j != i ==> Before(front, i, j)
    ensures forall j :: 0 <= j < n && j != i ==> Before(queue, i, j)
    ensures RankBelow(queue[n], queue[i]) ==> forall j :: 0 <= j < n ==> Before(queue, n, j)
  {
    forall j | 0 <= j < n && j != i
      ensures Before(queue, i, j)
    {
      assert Before(front, i, j);
    }
    if RankBelow(queue[n], queue[i]) {
      forall j | 0 <= j < n
        ensures Before(queue, n, j)
      {
        assert j != i ==> Before(queue, i, j);
      }
    }
  }

  /** The entry that comes before every other. */
  function Next(queue: seq<Queued>): (i: nat)
    requires queue != []
    ensures i < |queue|
    ensures forall j :: 0 <= j < |queue| && j != i ==> Before(queue, i, j)
  {
    if |queue| == 1 then 0
    else
      var n := |queue| - 1;
      var i := Next(queue[..n]);
      NextExtends(queue, queue[..n], n, i);
      if RankBelow(queue[n], queue[i]) then n else i
  }

  lemma NextIsUnique(queue: seq<Queued>, i: nat)
    requires i < |queue| && forall j :: 0 <= j < |queue| && j != i ==> Before(queue, i, j)
    ensures Next(queue) == i
  {
    if Next(queue) != i {
      NotBothWays(queue, i, Next(queue));
    }
  }

  lemma NotBothWays(queue: seq<Queued>, i: nat, j: nat)
    requires i < |queue| && j < |queue| && i != j
    ensures !(Before(queue, i, j) && Before(queue, j, i))
  {
  }

  function Without(queue: seq<Queued>, i: nat): (rest: seq<Queued>)
    requires i < |queue|
    ensures |rest| == |queue| - 1
  {
    queue[..i] + queue[i + 1..]
  }

  /** The entries as they would be served one after the other. */
  function Served(queue: seq<Queued>): (jobs: seq<Queued>)
    ensures |jobs| == |queue|
    decreases |queue|
  {
    if queue == [] then [] else [queue[Next(queue)]] + Served(Without(queue, Next(queue)))
  }

  /** What is left once the first `k` have been served. */
  function Remaining(queue: seq<Queued>, k: nat): (rest: seq<Queued>)
    requires k <= |queue|
    ensures |rest| == |queue| - k
    decreases |queue|
  {
    if k == 0 then queue else Remaining(Without(queue, Next(queue)), k - 1)
  }

  // ---- The two agree ----

  function Shift(i: nat, gone: nat): nat {
    if i > gone then i - 1 else i
  }

  lemma ShiftedEntry(queue: seq<Queued>, gone: nat, i: nat)
    requires gone < |queue| && i < |queue| && i != gone
    ensures Shift(i, gone) < |Without(queue, gone)| && Without(queue, gone)[Shift(i, gone)] == queue[i]
  {
  }

  function ShiftAll(order: seq<nat>, gone: nat): seq<nat> {
    seq(|order|, a requires 0 <= a < |order| => Shift(order[a], gone))
  }

  lemma TailIsServeOrder(queue: seq<Queued>, order: seq<nat>)
    requires queue != [] && IsServeOrder(queue, order)
    ensures IsServeOrder(Without(queue, order[0]), ShiftAll(order[1..], order[0]))
  {
    var gone := order[0];
    var tail := ShiftAll(order[1..], gone);
    forall a | 0 <= a < |tail|
      ensures order[a + 1] != gone && tail[a] == Shift(order[a + 1], gone)
    {
      assert order[0] != order[a + 1];
    }
    forall a, b | 0 <= a < b < |tail|
      ensures tail[a] != tail[b] && tail[a] < |queue| - 1 && tail[b] < |queue| - 1
      ensures Before(Without(queue, gone), tail[a], tail[b])
    {
      assert Before(queue, order[a + 1], order[b + 1]);
      ShiftedEntry(queue, gone, order[a + 1]);
      ShiftedEntry(queue, gone, order[b + 1]);
    }
    forall a | 0 <= a < |tail|
      ensures tail[a] < |queue| - 1
    {
      ShiftedEntry(queue, gone, order[a + 1]);
    }
  }

  lemma FirstIsNext(queue: seq<Queued>, order: seq<nat>)
    requires queue != [] && IsServeOrder(queue, order)
    ensures order[0] == Next(queue)
  {
    forall j | 0 <= j < |queue| && j != order[0]
      ensures Before(queue, order[0], j)
    {
      var a := AllPlaced(order, |queue|, j);
      assert a != 0;
    }
    NextIsUnique(queue, order[0]);
  }

  /** A list of `n` different numbers below `n` has every one of them. */
  lemma AllPlaced(order: seq<nat>, n: nat, j: nat) returns (a: nat)
    requires |order| == n && InRange(order, n) && NoRepeats(order) && j < n
    ensures a < n && order[a] == j
  {
    if j !in order {
      Pigeons(order, n, j);
    }
    a :| 0 <= a < |order| && order[a] == j;
  }

  function Below(n: nat): (s: set<nat>)
    ensures |s| == n && forall i: nat :: i in s <==> i < n
  {
    if n == 0 then {} else Below(n - 1) + {n - 1}
  }

  lemma Pigeons(order: seq<nat>, n: nat, j: nat)
    requires InRange(order, n) && NoRepeats(order) && j < n && j !in order
    ensures |order| < n
  {
    var held := set a | 0 <= a < |order| :: order[a];
    Cardinality(order, |order|);
    Fewer(held, Below(n) - {j});
  }

  lemma {:induction false} Cardinality(order: seq<nat>, k: nat)
    requires NoRepeats(order) && k <= |order|
    ensures |set a | 0 <= a < k :: order[a]| == k
  {
    if k > 0 {
      Cardinality(order, k - 1);
      assert (set a | 0 <= a < k :: order[a]) == (set a | 0 <= a < k - 1 :: order[a]) + {order[k - 1]};
    }
  }

  /** The sorted indices list the entries exactly as they would be served. */
  lemma {:induction false} OrderIsServed(queue: seq<Queued>, order: seq<nat>)
    requires IsServeOrder(queue, order)
    ensures forall a :: 0 <= a < |queue| ==> queue[order[a]] == Served(queue)[a]
    decreases |queue|
  {
    if queue != [] {
      var gone := order[0];
      FirstIsNext(queue, order);
      TailIsServeOrder(queue, order);
      OrderIsServed(Without(queue, gone), ShiftAll(order[1..], gone));
      forall a | 0 <= a < |queue|
        ensures queue[order[a]] == Served(queue)[a]
      {
        if a > 0 {
          assert order[0] != order[a];
          ShiftedEntry(queue, gone, order[a]);
          assert ShiftAll(order[1..], gone)[a - 1] == Shift(order[a], gone);
        }
      }
    }
  }

  // ---- What serving the first k means ----

  /** Serving `k` entries leaves the others in the order they had: every place drops by `k`. */
  lemma {:induction false} ServedThenRemaining(queue: seq<Queued>, k: nat)
    requires k <= |queue|
    ensures Served(Remaining(queue, k)) == Served(queue)[k..]
    decreases |queue|
  {
    if k > 0 {
      ServedThenRemaining(Without(queue, Next(queue)), k - 1);
      assert Served(queue)[k..] == Served(Without(queue, Next(queue)))[k - 1..];
    }
  }

  lemma TakeOut(queue: seq<Queued>, i: nat)
    requires i < |queue|
    ensures multiset(queue) == multiset{queue[i]} + multiset(Without(queue, i))
  {
    assert queue == queue[..i] + ([queue[i]] + queue[i + 1..]);
  }

  /** Served and remaining entries are together the queue. */
  lemma {:induction false} NobodyIsLost(queue: seq<Queued>, k: nat)
    requires k <= |queue|
    ensures multiset(queue) == multiset(Served(queue)[..k]) + multiset(Remaining(queue, k))
    decreases |queue|
  {
    hide Next, Without, Served;
    if k == 0 {
      assert Served(queue)[..0] == [];
    } else {
      var i := Next(queue);
      var rest := Without(queue, i);
      NobodyIsLost(rest, k - 1);
      TakeOut(queue, i);
      ServedFront(queue, k);
      Combine(queue, queue[i], rest, Served(rest)[..k - 1], Remaining(rest, k - 1));
    }
  }

  lemma ServedFront(queue: seq<Queued>, k: nat)
    requires 0 < k <= |queue|
    ensures var i := Next(queue);
            Served(queue)[..k] == [queue[i]] + Served(Without(queue, i))[..k - 1]
  {
    hide Next, Without;
  }

  lemma Combine(queue: seq<Queued>, first: Queued, rest: seq<Queued>, later: seq<Queued>, left: seq<Queued>)
    requires multiset(queue) == multiset{first} + multiset(rest)
    requires multiset(rest) == multiset(later) + multiset(left)
    ensures multiset(queue) == multiset([first] + later) + multiset(left)
  {
    assert multiset([first] + later) == multiset{first} + multiset(later);
  }

  /** Nobody is served before someone who waits with a lower rank. */
  lemma {:induction false} NoOvertaking(queue: seq<Queued>, k: nat, waiting: Queued, served: Queued)
    requires k <= |queue| && served in Served(queue)[..k] && waiting in Remaining(queue, k)
    ensures !RankBelow(waiting, served)
    decreases |queue|
  {
    var i := Next(queue);
    var rest := Without(queue, i);
    NobodyIsLost(rest, k - 1);
    if served == queue[i] {
      assert waiting in multiset(rest);
      var a :| 0 <= a < |rest| && rest[a] == waiting;
      var j := if a < i then a else a + 1;
      assert queue[j] == waiting && Before(queue, i, j);
    } else {
      assert Served(queue)[..k] == [queue[i]] + Served(rest)[..k - 1];
      NoOvertaking(rest, k - 1, waiting, served);
    }
  }
}
