/**
 Whose slot is whose: in every run of the scheduler, each entry of the queue, each
 offer and each upload is for the peer and the file of the request it goes back to,
 and a release touches only the requests of the peer released.
 */
module UploadOwners {
  import opened ServeOrder
  import opened UploadSpec

  /** A request as it was made. */
  datatype Request = Request(downloader: string, filename: string, realPath: string, size: nat)

  /** The requests of a run, the one with arrival number `a` at index `a - 1`. */
  function Asked(events: seq<Event>): seq<Request> {
    if events == [] then []
    else
      var e := events[|events| - 1];
      Asked(events[..|events| - 1])
      + (if e.Enqueuing? then [Request(e.downloader, e.filename, e.realPath, e.size)] else [])
  }

  predicate Waits(q: Queued, r: Request) {
    q.downloader == r.downloader && q.virtualPath == r.filename && q.realPath == r.realPath && q.size == r.size
  }

  predicate Holds(j: Job, r: Request) {
    j.downloader == r.downloader && j.virtualPath == r.filename && j.realPath == r.realPath && j.size == r.size
  }

  predicate Carries(u: Upload, r: Request) {
    u.username == r.downloader && u.filename == r.filename && u.size == r.size
  }

  /** Wherever the request with this arrival number is, it is there as it was made. */
  predicate OwnPlace(s: State, a: nat, r: Request)
    requires a in s.fates
  {
    match s.fates[a]
    case Waiting => forall i :: 0 <= i < |s.queue| && s.queue[i].arrival == a ==> Waits(s.queue[i], r)
    case Offered(t) => t in s.offers ==> Holds(s.offers[t], r)
    case Serving(t) => t in s.active ==> Carries(s.active[t], r)
    case _ => true
  }

  ghost predicate Owned(s: State, asked: seq<Request>) {
    && |asked| == s.arrivals
    && forall a :: a in s.fates ==> 1 <= a <= |asked| && OwnPlace(s, a, asked[a - 1])
  }

  // ---- Preservation ----

  lemma EnqueueOwns(s: State, asked: seq<Request>, d: string, f: string, p: string, n: nat)
    requires Inv(s) && Owned(s, asked)
    ensures Owned(Enqueue(s, d, f, p, n), asked + [Request(d, f, p, n)])
  {
    var w := Enqueue(s, d, f, p, n);
    var more := asked + [Request(d, f, p, n)];
    forall a | a in w.fates
      ensures 1 <= a <= |more| && OwnPlace(w, a, more[a - 1])
    {
      if a != s.arrivals + 1 {
        assert OwnPlace(s, a, asked[a - 1]);
      }
    }
  }

  /** The entry served waits, and waits as it was asked for. */
  lemma ServedWaits(s: State, asked: seq<Request>)
    requires Inv(s) && Owned(s, asked) && s.queue != []
    ensures var q := s.queue[Next(s.queue)];
            q.arrival in s.fates && 1 <= q.arrival <= |asked| && Waits(q, asked[q.arrival - 1])
  {
    hide Places, TokensOk, InFlight, Next;
    var q := s.queue[Next(s.queue)];
    assert InQueue(s.queue, q.arrival);
    ArrivalHasFate(s.fates, s.queue, s.arrivals, q.arrival);
    assert OwnPlace(s, q.arrival, asked[q.arrival - 1]);
  }

  lemma PumpOneOwns(s: State, asked: seq<Request>, now: nat)
    requires Inv(s) && Owned(s, asked) && s.queue != []
    ensures Owned(PumpOne(s, now), asked)
  {
    hide Inv, PumpOne, OwnPlace, Next;
    ServedWaits(s, asked);
    TokensAreOld(s);
    var q := s.queue[Next(s.queue)];
    PumpFates(s, now);
    forall a | a in s.fates
      ensures 1 <= a <= |asked| && OwnPlace(PumpOne(s, now), a, asked[a - 1])
    {
      assert OwnPlace(s, a, asked[a - 1]);
      PumpOwnsOne(s, now, a, asked[a - 1]);
    }
  }

  lemma PumpFates(s: State, now: nat)
    requires s.queue != [] && s.queue[Next(s.queue)].arrival in s.fates
    ensures PumpOne(s, now).fates.Keys == s.fates.Keys && PumpOne(s, now).arrivals == s.arrivals
  {
    hide Next, Without;
  }

  lemma PumpOwnsOne(s: State, now: nat, a: nat, r: Request)
    requires s.queue != [] && a in s.fates && OwnPlace(s, a, r)
    requires s.fates[a].Offered? ==> s.fates[a].token < s.nextToken
    requires a == s.queue[Next(s.queue)].arrival ==> Waits(s.queue[Next(s.queue)], r)
    ensures a in PumpOne(s, now).fates && OwnPlace(PumpOne(s, now), a, r)
  {
    WithoutIs(s.queue, Next(s.queue));
    hide Next, Without;
  }

  lemma TokensAreOld(s: State)
    requires Inv(s)
    ensures forall a :: a in s.fates && s.fates[a].Offered? ==> s.fates[a].token in s.offers && s.fates[a].token < s.nextToken
  {
    hide QueueOk, Lines, InFlight;
  }

  lemma {:induction false} PumpOwns(s: State, asked: seq<Request>, now: nat, k: nat)
    requires Inv(s) && Owned(s, asked) && k <= |s.queue| && InFlight(s) + k <= s.slots
    ensures Owned(PumpMany(s, now, k), asked)
    decreases k
  {
    hide Inv, Owned, InFlight, PumpOne;
    if k > 0 {
      PumpOneOwns(s, asked, now);
      PumpOneKeeps(s, now);
      PumpOneFields(s, now);
      PumpOwns(PumpOne(s, now), asked, now, k - 1);
    }
  }

  lemma RankOwns(s: State, asked: seq<Request>, users: set<string>)
    requires Owned(s, asked)
    ensures Owned(SetPrivileged(s, users), asked)
  {
    var w := SetPrivileged(s, users);
    forall a | a in w.fates
      ensures 1 <= a <= |asked| && OwnPlace(w, a, asked[a - 1])
    {
      assert OwnPlace(s, a, asked[a - 1]);
    }
  }

  lemma ExpireOwns(s: State, asked: seq<Request>, now: nat)
    requires Owned(s, asked)
    ensures Owned(Expire(s, now), asked)
  {
    hide Stale;
    var w := Expire(s, now);
    forall a | a in w.fates
      ensures 1 <= a <= |asked| && OwnPlace(w, a, asked[a - 1])
    {
      assert OwnPlace(s, a, asked[a - 1]);
    }
  }

  lemma AnswerOwns(s: State, asked: seq<Request>, token: nat)
    requires Owned(s, asked)
    ensures Owned(Answer(s, token), asked)
  {
    var w := Answer(s, token);
    forall a | a in w.fates
      ensures 1 <= a <= |asked| && OwnPlace(w, a, asked[a - 1])
    {
      assert OwnPlace(s, a, asked[a - 1]);
    }
  }

  lemma ReleaseOwns(s: State, asked: seq<Request>, d: string)
    requires Owned(s, asked)
    ensures Owned(Release(s, d), asked)
  {
    var w := Release(s, d);
    KeptMembers(s.queue, d);
    hide Kept, QueuedBy, OfferedTo;
    forall a | a in w.fates
      ensures 1 <= a <= |asked| && OwnPlace(w, a, asked[a - 1])
    {
      assert OwnPlace(s, a, asked[a - 1]);
      forall i | w.fates[a] == Waiting && 0 <= i < |w.queue| && w.queue[i].arrival == a
        ensures Waits(w.queue[i], asked[a - 1])
      {
        assert w.queue[i] in s.queue;
      }
    }
  }

  lemma ServeOwns(s: State, asked: seq<Request>, token: nat)
    requires Inv(s) && Owned(s, asked)
    ensures Owned(Serve(s, token), asked)
  {
    hide Inv, Serve, OwnPlace;
    TokensApart(s);
    ServeFates(s, token);
    forall a | a in s.fates
      ensures 1 <= a <= |asked| && OwnPlace(Serve(s, token), a, asked[a - 1])
    {
      assert OwnPlace(s, a, asked[a - 1]);
      ServeOwnsOne(s, token, a, asked[a - 1]);
    }
  }

  lemma ServeFates(s: State, token: nat)
    ensures Serve(s, token).fates.Keys == s.fates.Keys && Serve(s, token).arrivals == s.arrivals
  {
  }

  lemma ServeOwnsOne(s: State, token: nat, a: nat, r: Request)
    requires a in s.fates && OwnPlace(s, a, r)
    requires s.fates[a].Serving? ==> s.fates[a].token !in s.offers
    ensures a in Serve(s, token).fates && OwnPlace(Serve(s, token), a, r)
  {
  }

  lemma TokensApart(s: State)
    requires Inv(s)
    ensures forall a :: a in s.fates && s.fates[a].Serving? ==> s.fates[a].token !in s.offers
  {
    hide QueueOk, Lines, InFlight;
  }

  lemma FinishOwns(s: State, asked: seq<Request>, token: nat, status: Status)
    requires Owned(s, asked)
    ensures Owned(Finish(s, token, status), asked)
  {
    var w := Finish(s, token, status);
    forall a | a in w.fates
      ensures 1 <= a <= |asked| && OwnPlace(w, a, asked[a - 1])
    {
      assert OwnPlace(s, a, asked[a - 1]);
    }
  }

  lemma StepOwns(s: State, asked: seq<Request>, e: Event)
    requires Inv(s) && Owned(s, asked)
    ensures Owned(Step(s, e),
                  asked + (if e.Enqueuing? then [Request(e.downloader, e.filename, e.realPath, e.size)] else []))
  {
    hide Inv, Owned, Enqueue, SetPrivileged, Expire, Answer, Release, Serve, Finish, InFlight, PumpMany;
    assert asked + [] == asked;
    match e
    case Enqueuing(d, f, p, n) => EnqueueOwns(s, asked, d, f, p, n);
    case Pumping(now) =>
      if InFlight(s) < s.slots {
        PumpOwns(s, asked, now, Servable(s));
      } else {
        PumpsNothing(s, now);
      }
    case Ranking(users) => RankOwns(s, asked, users);
    case Expiring(now) => ExpireOwns(s, asked, now);
    case Answering(token) => AnswerOwns(s, asked, token);
    case Releasing(d) => ReleaseOwns(s, asked, d);
    case Starting(token) => ServeOwns(s, asked, token);
    case Finishing(token, status) => FinishOwns(s, asked, token, status);
    case Resizing(n) => ResizeOwns(s, asked, n);
  }

  lemma PumpsNothing(s: State, now: nat)
    requires InFlight(s) >= s.slots
    ensures Pump(s, now) == s
  {
  }

  lemma ResizeOwns(s: State, asked: seq<Request>, n: nat)
    requires Owned(s, asked)
    ensures Owned(SetSlots(s, n), asked)
  {
    var w := SetSlots(s, n);
    forall a | a in w.fates
      ensures 1 <= a <= |asked| && OwnPlace(w, a, asked[a - 1])
    {
      assert OwnPlace(s, a, asked[a - 1]);
    }
  }

  /** In every run each request is wherever it is as the one that was made. */
  lemma {:induction false} EveryPlaceIsItsOwners(slots: nat, events: seq<Event>)
    requires AllValid(events)
    ensures Owned(Run(slots, events), Asked(events))
  {
    hide Inv, Owned, Step;
    if events == [] {
      NobodyYet(slots);
    } else {
      var front := events[..|events| - 1];
      EveryPlaceIsItsOwners(slots, front);
      EveryRunKeeps(slots, front);
      StepOwns(Run(slots, front), Asked(front), events[|events| - 1]);
    }
  }

  lemma NobodyYet(slots: nat)
    ensures Owned(UploadSpec.Fresh(slots), [])
  {
  }

  // ---- What a release does ----

  /**
   In every run a release moves on just the requests that its peer made and that
   still wait or are on offer; what the peer is already being sent goes on, and
   nobody else's request is touched.
   */
  lemma ReleasesOnlyTheirs(slots: nat, events: seq<Event>, d: string, a: nat)
    requires AllValid(events) && a in Run(slots, events).fates
    ensures var s := Run(slots, events);
            && 1 <= a <= |Asked(events)|
            && a in Release(s, d).fates
            && Release(s, d).fates[a] ==
                 (if Asked(events)[a - 1].downloader == d && (s.fates[a] == Waiting || s.fates[a].Offered?)
                  then Released else s.fates[a])
  {
    EveryRunKeeps(slots, events);
    EveryPlaceIsItsOwners(slots, events);
    ReleaseOf(Run(slots, events), Asked(events), d, a);
    hide Inv, Owned, Run, Asked;
  }

  lemma ReleaseOf(s: State, asked: seq<Request>, d: string, a: nat)
    requires Inv(s) && Owned(s, asked) && a in s.fates
    ensures 1 <= a <= |asked| && a in Release(s, d).fates
    ensures Release(s, d).fates[a] ==
              if asked[a - 1].downloader == d && (s.fates[a] == Waiting || s.fates[a].Offered?)
              then Released else s.fates[a]
  {
    assert OwnPlace(s, a, asked[a - 1]);
    InQueueOnce(s, a);
    TokensAreOld(s);
    hide Inv, Kept, Owned;
    if i :| 0 <= i < |s.queue| && s.queue[i].arrival == a {
      assert s.fates[a] == Waiting;
      assert a in QueuedBy(s.queue, d) <==> s.queue[i].downloader == d;
    }
  }

  lemma InQueueOnce(s: State, a: nat)
    requires Inv(s) && a in s.fates
    ensures s.fates[a] == Waiting <==> InQueue(s.queue, a)
    ensures forall i, j :: 0 <= i < |s.queue| && 0 <= j < |s.queue| && s.queue[i].arrival == s.queue[j].arrival ==> i == j
  {
    hide Places, TokensOk, InFlight;
    forall i, j | 0 <= i < |s.queue| && 0 <= j < |s.queue| && s.queue[i].arrival == s.queue[j].arrival
      ensures i == j
    {
      assert !(i < j) && !(j < i);
    }
  }
}
