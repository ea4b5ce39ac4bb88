/**
 What becomes of one request and one slot: in every reachable state of the scheduler,
 what each operation moves where, and that it leaves everything else alone.
 */
module UploadSteps {
  import opened Wrappers
  import opened ServeOrder
  import opened UploadSpec

  /** Nothing of the scheduler but its offers, its uploads and the fates differs. */
  predicate SameQueue(s: State, w: State) {
    && w.queue == s.queue && w.privileged == s.privileged && w.slots == s.slots
    && w.arrivals == s.arrivals && w.nextToken == s.nextToken
  }

  /** The same requests, and the fate of every one but `a` is what it was. */
  predicate SameFates(s: State, w: State, a: nat) {
    w.fates.Keys == s.fates.Keys && forall b :: b in s.fates && b != a ==> w.fates[b] == s.fates[b]
  }

  /**
   An accepted offer becomes an upload: of the request that held it, of that peer and
   file and size, in progress, and in the slot it had. Starting on any other token
   does nothing.
   */
  lemma AcceptedIsServed(slots: nat, events: seq<Event>, token: nat)
    requires AllValid(events)
    ensures var s := Run(slots, events);
            var w := Run(slots, events + [Starting(token)]);
            && (token !in s.offers ==> w == s)
            && (token in s.offers ==>
                  && Moved(s, w, token)
                  && SameQueue(s, w) && InFlight(w) == InFlight(s)
                  && exists a :: a in s.fates && s.fates[a] == Offered(token)
                                 && SameFates(s, w, a) && w.fates[a] == Serving(token))
  {
    hide Run, Inv, InFlight, Serve, SameQueue, SameFates, Moved, AllValid;
    RunOneMore(slots, events, Starting(token));
    EveryRunKeeps(slots, events);
    var s := Run(slots, events);
    ServedMoves(s, token);
    if token in s.offers {
      ServedOnly(s, token);
      ServeKeeps(s, token);
    }
  }

  /** The slot's two tables before and after. */
  lemma ServedMoves(s: State, token: nat)
    ensures var w := Serve(s, token);
            && (token !in s.offers ==> w == s)
            && (token in s.offers ==> Moved(s, w, token) && SameQueue(s, w))
  {
    hide Marked;
  }

  predicate Moved(s: State, w: State, token: nat) {
    && token in s.offers && token !in w.offers && token in w.active
    && w.active[token].username == s.offers[token].downloader
    && w.active[token].filename == s.offers[token].virtualPath
    && w.active[token].size == s.offers[token].size
    && w.active[token].status == InProgress
    && w.offers.Keys == s.offers.Keys - {token} && w.active.Keys == s.active.Keys + {token}
    && (forall t :: t in w.offers ==> w.offers[t] == s.offers[t])
    && (forall t :: t in s.active && t != token ==> w.active[t] == s.active[t])
  }

  lemma RunOneMore(slots: nat, events: seq<Event>, e: Event)
    ensures Run(slots, events + [e]) == Step(Run(slots, events), e)
  {
    assert (events + [e])[..|events|] == events;
  }

  lemma ServedOnly(s: State, token: nat)
    requires Inv(s) && token in s.offers
    ensures var w := Serve(s, token);
            exists a :: a in s.fates && s.fates[a] == Offered(token)
                        && SameFates(s, w, a) && w.fates[a] == Serving(token)
  {
    hide QueueOk, Lines, InFlight;
    assert Held(s.fates, Offered(token));
    var a :| a in s.fates && s.fates[a] == Offered(token);
    assert SameFates(s, Serve(s, token), a);
  }

  /** The slots taken by uploads in progress and by offers. */
  function Running(s: State): set<nat> {
    set t | t in s.active && s.active[t].status == InProgress
  }

  /** A slot is taken by each offer and by each upload in progress, by nothing else. */
  lemma SlotsTaken(s: State)
    ensures InFlight(s) == |s.offers| + |Running(s)|
  {
    assert Running(s) == Busy(s.active);
  }

  /** An upload that ends, however it does, keeps its place in the table and frees its slot, once. */
  lemma EndedFrees(slots: nat, events: seq<Event>, token: nat, status: Status)
    requires AllValid(events) && status != InProgress
    ensures var s := Run(slots, events);
            var w := Run(slots, events + [Finishing(token, status)]);
            && (token !in s.active ==> w == s)
            && (token in s.active ==>
                  && w.active.Keys == s.active.Keys && w.active[token] == s.active[token].(status := status)
                  && (forall t :: t in s.active && t != token ==> w.active[t] == s.active[t])
                  && SameQueue(s, w) && w.offers == s.offers && w.fates == s.fates
                  && InFlight(w) == (if s.active[token].status == InProgress then InFlight(s) - 1 else InFlight(s)))
  {
    RunOneMore(slots, events, Finishing(token, status));
    hide Run;
    var s := Run(slots, events);
    if token in s.active {
      var w := Finish(s, token, status);
      assert w.active.Keys == s.active.Keys;
      assert Busy(w.active) == Busy(s.active) - {token};
      assert s.active[token].status == InProgress ==> Busy(s.active) == Busy(w.active) + {token};
      assert s.active[token].status != InProgress ==> Busy(s.active) == Busy(w.active);
    }
  }

  /**
   The number of slots is the one asked for, one at least; what is taken stays taken, and
   as many of those waiting can be let in as are free.
   */
  lemma SlotsAreSet(slots: nat, events: seq<Event>, n: nat)
    ensures var s := Run(slots, events);
            var w := Run(slots, events + [Resizing(n)]);
            && w.slots == (if n == 0 then 1 else n)
            && w.queue == s.queue && w.offers == s.offers && w.active == s.active && w.fates == s.fates
            && w.privileged == s.privileged && InFlight(w) == InFlight(s)
            && Servable(w) == (if InFlight(s) >= w.slots then 0
                               else if w.slots - InFlight(s) < |s.queue| then w.slots - InFlight(s) else |s.queue|)
  {
    RunOneMore(slots, events, Resizing(n));
    hide Run;
  }

  /** A request goes to the end of the queue, as it was made, with the flag of its peer, and waits. */
  lemma RequestWaits(slots: nat, events: seq<Event>, d: string, f: string, p: string, n: nat)
    requires AllValid(events)
    ensures var s := Run(slots, events);
            var w := Run(slots, events + [Enqueuing(d, f, p, n)]);
            && |w.queue| == |s.queue| + 1 && w.queue[..|s.queue|] == s.queue
            && (var q := w.queue[|s.queue|];
                && q.downloader == d && q.virtualPath == f && q.realPath == p && q.size == n
                && (q.privileged <==> d in s.privileged)
                && q.arrival == s.arrivals + 1 == w.arrivals)
            && w.arrivals !in s.fates && w.arrivals in w.fates && w.fates[w.arrivals] == Waiting
            && (forall b :: b in s.fates ==> b in w.fates && w.fates[b] == s.fates[b])
            && w.offers == s.offers && w.active == s.active && w.slots == s.slots
  {
    RunOneMore(slots, events, Enqueuing(d, f, p, n));
    EveryRunKeeps(slots, events);
    hide Run, InFlight, Places;
  }

  /**
   A pump takes the first waiting ones in the order of service, as many as there are
   free slots or waiting, and offers each the next token, as of now; nobody else's
   place changes.
   */
  lemma PumpOffers(slots: nat, events: seq<Event>, now: nat, i: nat)
    requires AllValid(events) && i < |ServeOrder.Served(Run(slots, events).queue)|
    ensures var s := Run(slots, events);
            var w := Run(slots, events + [Pumping(now)]);
            var free := if InFlight(s) >= s.slots then 0 else s.slots - InFlight(s);
            var q := ServeOrder.Served(s.queue)[i];
            && |w.queue| == (if |s.queue| <= free then 0 else |s.queue| - free)
            && ServeOrder.Served(w.queue) == ServeOrder.Served(s.queue)[|s.queue| - |w.queue|..]
            && (i < free ==>
                  var t := s.nextToken + i;
                  && t !in s.offers && t in w.offers && w.offers[t].downloader == q.downloader
                  && w.offers[t].virtualPath == q.virtualPath && w.offers[t].realPath == q.realPath
                  && w.offers[t].size == q.size && w.offers[t].offered == Some(now))
            && (forall t :: t in s.offers ==> t in w.offers && w.offers[t] == s.offers[t])
            && w.active == s.active && w.slots == s.slots && w.privileged == s.privileged
  {
    hide Run, Inv, InFlight, Pump, AllValid, Servable;
    RunOneMore(slots, events, Pumping(now));
    EveryRunKeeps(slots, events);
    PumpIs(Run(slots, events), now, i);
  }

  lemma PumpIs(s: State, now: nat, i: nat)
    requires Inv(s) && i < |s.queue|
    ensures var w := Pump(s, now);
            var free := if InFlight(s) >= s.slots then 0 else s.slots - InFlight(s);
            var q := ServeOrder.Served(s.queue)[i];
            && |w.queue| == (if |s.queue| <= free then 0 else |s.queue| - free)
            && ServeOrder.Served(w.queue) == ServeOrder.Served(s.queue)[|s.queue| - |w.queue|..]
            && (i < free ==>
                  var t := s.nextToken + i;
                  && t !in s.offers && t in w.offers && w.offers[t].downloader == q.downloader
                  && w.offers[t].virtualPath == q.virtualPath && w.offers[t].realPath == q.realPath
                  && w.offers[t].size == q.size && w.offers[t].offered == Some(now))
            && (forall t :: t in s.offers ==> t in w.offers && w.offers[t] == s.offers[t])
            && w.active == s.active && w.slots == s.slots && w.privileged == s.privileged
  {
    hide Pump, InFlight, Remaining, Inv, ServeOrder.Served;
    var k := Servable(s);
    PumpKeeps(s, now);
    ServedThenRemaining(s.queue, k);
    FreshOffers(s);
    if i < k {
      assert HoldsOffer(Pump(s, now), ServeOrder.Served(s.queue)[..k][i], s.nextToken + i, now);
    }
  }

  lemma FreshOffers(s: State)
    requires Inv(s)
    ensures forall t :: t in s.offers ==> t < s.nextToken
  {
  }

  /** A new list of donors re-ranks whoever waits, and changes nothing else of them. */
  lemma DonorsAreRanked(slots: nat, events: seq<Event>, users: set<string>)
    ensures var s := Run(slots, events);
            var w := Run(slots, events + [Ranking(users)]);
            && w.privileged == users && |w.queue| == |s.queue|
            && (forall i :: 0 <= i < |s.queue| ==>
                  && (w.queue[i].privileged <==> s.queue[i].downloader in users)
                  && w.queue[i].(privileged := s.queue[i].privileged) == s.queue[i])
            && w.offers == s.offers && w.active == s.active && w.fates == s.fates && w.slots == s.slots
  {
    RunOneMore(slots, events, Ranking(users));
    hide Run;
  }

  /** An answer stops the clock of that offer, and does nothing else. */
  lemma AnswerStopsTheClock(slots: nat, events: seq<Event>, token: nat)
    ensures var s := Run(slots, events);
            var w := Run(slots, events + [Answering(token)]);
            && w.offers.Keys == s.offers.Keys && w.active == s.active && w.fates == s.fates && SameQueue(s, w)
            && (forall t :: t in s.offers && t != token ==> w.offers[t] == s.offers[t])
            && (token in s.offers ==>
                  w.offers[token].offered == None && w.offers[token].(offered := s.offers[token].offered) == s.offers[token])
  {
    RunOneMore(slots, events, Answering(token));
    hide Run;
  }

  /** The look for stale offers drops just those that have stood for thirty seconds and whose clock still runs. */
  lemma StaleAreDropped(slots: nat, events: seq<Event>, now: nat, t: nat)
    ensures var s := Run(slots, events);
            var w := Run(slots, events + [Expiring(now)]);
            && (t in w.offers <==>
                  t in s.offers && (s.offers[t].offered == None || now < s.offers[t].offered.value + 30_000_000_000))
            && (t in w.offers ==> w.offers[t] == s.offers[t])
            && w.active == s.active && SameQueue(s, w)
  {
    RunOneMore(slots, events, Expiring(now));
    hide Run, Marked;
  }

  /** A release takes out all that the peer waits for and all it was offered, and keeps the others as they stand. */
  lemma ReleasedAreGone(slots: nat, events: seq<Event>, d: string, t: nat)
    ensures var s := Run(slots, events);
            var w := Run(slots, events + [Releasing(d)]);
            && (t in w.offers <==> t in s.offers && s.offers[t].downloader != d)
            && (t in w.offers ==> w.offers[t] == s.offers[t])
            && (forall q :: q in w.queue <==> q in s.queue && q.downloader != d)
            && w.active == s.active && w.slots == s.slots && w.privileged == s.privileged && w.arrivals == s.arrivals
  {
    RunOneMore(slots, events, Releasing(d));
    hide Run, Marked, QueuedBy, Kept;
    KeptAre(Run(slots, events).queue, d);
  }

  lemma {:induction false} KeptAre(queue: seq<Queued>, d: string)
    ensures forall q :: q in Kept(queue, d) <==> q in queue && q.downloader != d
  {
    if queue != [] {
      var n := |queue| - 1;
      KeptAre(queue[..n], d);
      assert queue == queue[..n] + [queue[n]];
    }
  }
}
