/**
 The upload scheduler as it runs: a queue vector, a table of offers and a table
 of uploads, changed in place under the client's lock.
 */
module UploadQueue {
  import opened Basics
  import opened Wrappers
  import opened ServeOrder
  import opened UploadSpec

  const U32_MAX: nat := 0xFFFF_FFFF

  /** A zero-based position as a place on the wire: one-based, and clamped to 32 bits. */
  function AsPlace(zeroBased: nat): (p: nat)
    ensures 1 <= p <= U32_MAX
  {
    if zeroBased + 1 > U32_MAX then U32_MAX else zeroBased + 1
  }

  class Scheduler {
    var queue: seq<Queued>
    var uploads: map<nat, Job>
    var active: map<nat, Upload>
    var privileged: set<string>
    var slots: nat
    var arrivals: nat
    var nextToken: nat
    ghost var fates: map<nat, Fate>
    ghost var mostSlots: nat

    ghost function State(): State
      reads this
    {
      UploadSpec.State(queue, uploads, active, privileged, slots, arrivals, nextToken, fates, mostSlots)
    }

    constructor (slots: nat)
      ensures State() == Fresh(slots)
    {
      queue, uploads, active, privileged := [], map[], map[], {};
      this.slots, arrivals, nextToken := slots, 0, 0x8000_0000;
      fates, mostSlots := map[], slots;
    }

    method EnqueueUpload(downloader: string, filename: string, realPath: string, size: nat)
      modifies this
      ensures State() == Enqueue(old(State()), downloader, filename, realPath, size)
    {
      arrivals := arrivals + 1;
      queue := queue + [Queued(downloader, filename, realPath, size, downloader in privileged, arrivals)];
      fates := fates[arrivals := Waiting];
    }

    /** Offered uploads and those actually streaming; finished ones stay in the table and do not count. */
    method UploadsInFlight() returns (n: nat)
      ensures n == InFlight(State())
    {
      var streaming := 0;
      var left := active.Keys;
      while left != {}
        invariant left <= active.Keys
        invariant streaming == |Busy(active) - left|
        decreases |left|
      {
        var t :| t in left;
        if active[t].status == InProgress {
          assert Busy(active) - (left - {t}) == (Busy(active) - left) + {t};
          streaming := streaming + 1;
        } else {
          assert Busy(active) - (left - {t}) == Busy(active) - left;
        }
        left := left - {t};
      }
      assert Busy(active) - {} == Busy(active);
      n := |uploads| + streaming;
    }

    /** The offers of one pump, which `Offers` gives without a loop. */
    method PumpUploads(now: nat) returns (offers: seq<Offer>)
      requires Inv(State())
      modifies this
      ensures Inv(State()) && State() == Pump(old(State()), now)
      ensures offers == Offers(old(State()), Servable(old(State())))
    {
      ghost var s := State();
      PumpKeeps(s, now);
      TurnStart(s, now);
      hide Inv, InFlight, Pump, PumpOne, Next, Turn, Offers;
      offers := [];
      while true
        invariant Turn(s, State(), offers, now)
        decreases |queue|
      {
        var inFlight := UploadsInFlight();
        TurnEnd(s, State(), offers, now);
        if inFlight >= slots {
          break;
        }
        var next := NextToServe(queue);
        if next.None? {
          break;
        }
        TurnStep(s, State(), offers, now);
        var offer := OfferNext(next.value, now);
        offers := offers + [offer];
      }
    }

    /** Take entry `i` out of the queue and offer it the next token. */
    method OfferNext(i: nat, now: nat) returns (offer: Offer)
      requires queue != [] && i == Next(queue)
      modifies this
      ensures State() == PumpOne(old(State()), now) && |queue| < |old(queue)|
      ensures offer == OfferTo(old(queue)[i], old(nextToken))
    {
      var job := queue[i];
      queue := Without(queue, i);
      var token := nextToken;
      nextToken := nextToken + 1;
      offer := Offer(job.downloader, token, job.virtualPath, job.size);
      uploads := uploads[token := Job(job.downloader, job.realPath, job.virtualPath, job.size, Some(now))];
      fates := fates[job.arrival := Offered(token)];
    }

    /** Where this file of this peer stands, counting from 1. */
    method PlaceInQueue(downloader: string, filename: string) returns (place: Option<nat>)
      ensures var p := Position(ServeOrder.Served(queue), downloader, filename);
              place == if p.None? then None else if p.value + 1 > 4_294_967_295 then Some(4_294_967_295) else Some(p.value + 1)
    {
      var order := ServeOrder.ServeOrder(queue);
      OrderIsServed(queue, order);
      ghost var jobs := ServeOrder.Served(queue);
      hide ServeOrder.Served, IsServeOrder;
      for a := 0 to |order|
        invariant forall b :: 0 <= b < a ==> !IsFor(jobs[b], downloader, filename)
      {
        var job := queue[order[a]];
        if job.downloader == downloader && job.virtualPath == filename {
          PositionIs(jobs, downloader, filename, a);
          return Some(AsPlace(a));
        }
      }
      place := None;
    }

    /** The new set, and every waiting entry's flag made to agree with it. */
    method SetPrivilegedUsers(users: seq<string>)
      modifies this
      ensures State() == SetPrivileged(old(State()), set u | u in users)
    {
      privileged := set u | u in users;
      for i := 0 to |queue|
        invariant |queue| == |old(queue)| && privileged == set u | u in users
        invariant State() == old(State()).(queue := queue, privileged := privileged)
        invariant forall j :: 0 <= j < i ==> queue[j] == Reranked(old(queue), privileged)[j]
        invariant forall j :: i <= j < |queue| ==> queue[j] == old(queue)[j]
      {
        queue := queue[i := queue[i].(privileged := queue[i].downloader in privileged)];
      }
      assert queue == Reranked(old(queue), privileged);
    }

    /** Drop offers nobody answered in time; whether any was dropped. */
    method ExpireStaleOffers(now: nat) returns (dropped: bool)
      modifies this
      ensures State() == Expire(old(State()), now)
      ensures dropped <==> Stale(old(State()), now) != {}
    {
      var stale := set t | t in uploads && uploads[t].offered.Some? && Elapsed(now, uploads[t].offered.value) >= OFFER_TIMEOUT;
      assert stale == Stale(State(), now);
      DropOffers(stale);
      hide Marked;
      fates := Marked(fates, stale, Expired);
      dropped := stale != {};
    }

    method DropOffers(tokens: set<nat>)
      requires tokens <= uploads.Keys
      modifies `uploads
      ensures uploads == old(uploads) - tokens
    {
      var left := tokens;
      while left != {}
        invariant left <= tokens && uploads == old(uploads) - (tokens - left)
        decreases |left|
      {
        var t :| t in left;
        uploads := uploads - {t};
        left := left - {t};
      }
      assert tokens - {} == tokens;
    }

    method MarkOfferAnswered(token: nat)
      modifies this
      ensures State() == Answer(old(State()), token)
    {
      if token in uploads {
        uploads := uploads[token := uploads[token].(offered := None)];
      }
    }

    /** Forget what a peer waits for or was offered; whether that freed anything. */
    method ReleaseUploadSlots(downloader: string) returns (freed: bool)
      modifies this
      ensures State() == Release(old(State()), downloader)
      ensures freed <==> |State().queue| < |old(queue)| || |State().offers| < |old(uploads)|
    {
      ghost var s := State();
      var before := |queue| + |uploads|;
      var kept: seq<Queued> := [];
      for i := 0 to |queue|
        invariant kept == Kept(queue[..i], downloader)
      {
        assert queue[..i + 1][..i] == queue[..i];
        if queue[i].downloader != downloader {
          kept := kept + [queue[i]];
        }
      }
      assert queue[..|queue|] == queue;
      var tokens := set t | t in uploads && uploads[t].downloader == downloader;
      assert tokens == OfferedTo(s, downloader);
      FewerOffers(uploads, tokens);
      queue, uploads := kept, uploads - tokens;
      fates := Release(s, downloader).fates;
      freed := before != |queue| + |uploads|;
    }

    /** The peer took the offer: move it to the uploads being served. */
    method SpawnServe(token: nat) returns (started: bool)
      modifies this
      ensures State() == Serve(old(State()), token)
      ensures started <==> token in old(uploads)
    {
      if token !in uploads {
        return false;
      }
      var job := uploads[token];
      uploads := uploads - {token};
      active := active[token := Upload(job.downloader, job.virtualPath, job.size, InProgress)];
      fates := Marked(fates, {token}, Serving(token));
      started := true;
    }

    method FinishServe(token: nat, status: Status)
      modifies this
      ensures State() == Finish(old(State()), token, status)
    {
      if token in active {
        active := active[token := active[token].(status := status)];
      }
    }

    method SetUploadSlots(n: nat)
      modifies this
      ensures State() == SetSlots(old(State()), n)
    {
      slots := if n > 1 then n else 1;
      mostSlots := if slots > mostSlots then slots else mostSlots;
    }
  }

  /** The pump that started in `s` is in the state `w` and has made these offers. */
  ghost predicate Turn(s: State, w: State, offers: seq<Offer>, now: nat) {
    && |offers| <= Servable(s) && Inv(w)
    && Servable(w) == Servable(s) - |offers|
    && PumpMany(w, now, Servable(w)) == Pump(s, now)
    && w.nextToken == s.nextToken + |offers|
    && ServeOrder.Served(w.queue) == ServeOrder.Served(s.queue)[|offers|..]
    && forall i :: 0 <= i < |offers| ==> offers[i] == OfferTo(ServeOrder.Served(s.queue)[i], s.nextToken + i)
  }

  lemma TurnStart(s: State, now: nat)
    requires Inv(s)
    ensures Turn(s, s, [], now)
  {
  }

  /** No slot is free or nobody waits exactly when every offer has been made. */
  lemma TurnEnd(s: State, w: State, offers: seq<Offer>, now: nat)
    requires Turn(s, w, offers, now)
    ensures InFlight(w) >= w.slots || w.queue == [] ==> w == Pump(s, now) && offers == Offers(s, Servable(s))
  {
    hide Inv, InFlight, ServeOrder.Served, PumpOne;
  }

  lemma TurnStep(s: State, w: State, offers: seq<Offer>, now: nat)
    requires Turn(s, w, offers, now) && InFlight(w) < w.slots && w.queue != []
    ensures Turn(s, PumpOne(w, now), offers + [OfferTo(w.queue[Next(w.queue)], w.nextToken)], now)
  {
    hide Inv, InFlight, Next, Without, ServeOrder.Served, Pump, PumpMany, Servable;
    var i := Next(w.queue);
    var v := PumpOne(w, now);
    PumpOneKeeps(w, now);
    OneFewer(w, now);
    ServedHead(w.queue);
    TailOf(ServeOrder.Served(s.queue), |offers|, w.queue[i], ServeOrder.Served(v.queue));
  }

  lemma OneFewer(w: State, now: nat)
    requires Inv(w) && InFlight(w) < w.slots && w.queue != []
    ensures Servable(w) > 0 && Servable(PumpOne(w, now)) == Servable(w) - 1
    ensures PumpMany(w, now, Servable(w)) == PumpMany(PumpOne(w, now), now, Servable(w) - 1)
  {
    PumpOneKeeps(w, now);
    PumpOneFields(w, now);
    hide Inv, InFlight, PumpOne;
  }

  lemma ServedHead(queue: seq<Queued>)
    requires queue != []
    ensures ServeOrder.Served(queue) == [queue[Next(queue)]] + ServeOrder.Served(Without(queue, Next(queue)))
  {
  }

  lemma TailOf<T>(all: seq<T>, n: nat, x: T, rest: seq<T>)
    requires n <= |all| && all[n..] == [x] + rest
    ensures n < |all| && x == all[n] && rest == all[n + 1..]
  {
    assert all[n..][0] == x && all[n..][1..] == rest;
  }
}
