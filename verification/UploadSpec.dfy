/**
 The upload scheduler as a state machine: the queue, the offers that hold a slot
 while their peer makes up its mind, and the uploads being served. Instants are
 nanoseconds; upload tokens are never reused.
 */
module UploadSpec {
  import opened Basics
  import opened Wrappers
  import opened ServeOrder

  const OFFER_TIMEOUT: nat := 30_000_000_000

  /** A slot offered to a peer; `offered` is cleared once the peer has answered. */
  datatype Job = Job(downloader: string, realPath: string, virtualPath: string, size: nat, offered: Option<nat>)

  datatype Status = InProgress | Completed | Cancelled | Failed

  datatype Upload = Upload(username: string, filename: string, size: nat, status: Status)

  datatype Offer = Offer(requester: string, token: nat, virtualPath: string, size: nat)

  /** What became of a request, by its arrival number. */
  datatype Fate = Waiting | Offered(token: nat) | Serving(token: nat) | Expired | Released

  datatype State = State(
    queue: seq<Queued>,
    offers: map<nat, Job>,
    active: map<nat, Upload>,
    privileged: set<string>,
    slots: nat,
    arrivals: nat,
    nextToken: nat,
    fates: map<nat, Fate>,
    mostSlots: nat)

  function Fresh(slots: nat): State {
    State([], map[], map[], {}, slots, 0, 0x8000_0000, map[], slots)
  }

  function Busy(active: map<nat, Upload>): set<nat> {
    set t | t in active && active[t].status == InProgress
  }

  /** Slots taken: offers not yet served, and uploads still running. */
  function InFlight(s: State): nat {
    |s.offers| + |Busy(s.active)|
  }

  // ---- Steps ----

  function Enqueue(s: State, downloader: string, filename: string, realPath: string, size: nat): State {
    var arrival := s.arrivals + 1;
    s.(queue := s.queue + [Queued(downloader, filename, realPath, size, downloader in s.privileged, arrival)],
       arrivals := arrival,
       fates := s.fates[arrival := Waiting])
  }

  /** Give the next entry a slot. */
  function PumpOne(s: State, now: nat): State
    requires s.queue != []
  {
    var i := Next(s.queue);
    var q := s.queue[i];
    s.(queue := Without(s.queue, i),
       offers := s.offers[s.nextToken := Job(q.downloader, q.realPath, q.virtualPath, q.size, Some(now))],
       nextToken := s.nextToken + 1,
       fates := s.fates[q.arrival := Offered(s.nextToken)])
  }

  function PumpMany(s: State, now: nat, k: nat): State
    requires k <= |s.queue|
    decreases k
  {
    if k == 0 then s else PumpMany(PumpOne(s, now), now, k - 1)
  }

  /** How many entries a pump serves: as many as there are free slots and waiting peers. */
  function Servable(s: State): (k: nat)
    ensures k <= |s.queue|
  {
    var free := if InFlight(s) < s.slots then s.slots - InFlight(s) else 0;
    if free < |s.queue| then free else |s.queue|
  }

  function Pump(s: State, now: nat): State {
    PumpMany(s, now, Servable(s))
  }

  /** The offers a pump sends. */
  function Offers(s: State, k: nat): (o: seq<Offer>)
    requires k <= |s.queue|
    ensures |o| == k
  {
    seq(k, i requires 0 <= i < k => OfferTo(ServeOrder.Served(s.queue)[i], s.nextToken + i))
  }

  function OfferTo(q: Queued, token: nat): Offer {
    Offer(q.downloader, token, q.virtualPath, q.size)
  }

  function Reranked(queue: seq<Queued>, users: set<string>): (r: seq<Queued>)
    ensures |r| == |queue|
  {
    seq(|queue|, i requires 0 <= i < |queue| => queue[i].(privileged := queue[i].downloader in users))
  }

  function SetPrivileged(s: State, users: set<string>): State {
    s.(privileged := users, queue := Reranked(s.queue, users))
  }

  function Stale(s: State, now: nat): set<nat> {
    set t | t in s.offers && s.offers[t].offered.Some? && Elapsed(now, s.offers[t].offered.value) >= OFFER_TIMEOUT
  }

  /** Fates with every request that holds one of these tokens as an offer moved on. */
  function Marked(fates: map<nat, Fate>, tokens: set<nat>, to: Fate): map<nat, Fate> {
    map a | a in fates :: if fates[a].Offered? && fates[a].token in tokens then to else fates[a]
  }

  function Expire(s: State, now: nat): State {
    s.(offers := s.offers - Stale(s, now), fates := Marked(s.fates, Stale(s, now), Expired))
  }

  function Answer(s: State, token: nat): State {
    if token in s.offers then s.(offers := s.offers[token := s.offers[token].(offered := None)]) else s
  }

  function Kept(queue: seq<Queued>, downloader: string): (r: seq<Queued>)
    ensures |r| <= |queue|
  {
    if queue == [] then []
    else
      var n := |queue| - 1;
      Kept(queue[..n], downloader) + (if queue[n].downloader != downloader then [queue[n]] else [])
  }

  function OfferedTo(s: State, downloader: string): set<nat> {
    set t | t in s.offers && s.offers[t].downloader == downloader
  }

  function QueuedBy(queue: seq<Queued>, downloader: string): set<nat> {
    set i | 0 <= i < |queue| && queue[i].downloader == downloader :: queue[i].arrival
  }

  /** Forget everything a peer waits for or was offered. */
  function Release(s: State, downloader: string): State {
    var tokens := OfferedTo(s, downloader);
    var waiting := QueuedBy(s.queue, downloader);
    s.(queue := Kept(s.queue, downloader),
       offers := s.offers - tokens,
       fates := map a | a in s.fates :: if a in waiting then Released else Marked(s.fates, tokens, Released)[a])
  }

  /** The peer took the offer: its slot goes on as an upload. */
  function Serve(s: State, token: nat): State {
    if token !in s.offers then s
    else
      var job := s.offers[token];
      s.(offers := s.offers - {token},
         active := s.active[token := Upload(job.downloader, job.virtualPath, job.size, InProgress)],
         fates := Marked(s.fates, {token}, Serving(token)))
  }

  function Finish(s: State, token: nat, status: Status): State {
    if token in s.active then s.(active := s.active[token := s.active[token].(status := status)]) else s
  }

  function SetSlots(s: State, slots: nat): State {
    var n := if slots > 1 then slots else 1;
    s.(slots := n, mostSlots := if n > s.mostSlots then n else s.mostSlots)
  }

  datatype Event =
    | Enqueuing(downloader: string, filename: string, realPath: string, size: nat)
    | Pumping(now: nat)
    | Ranking(users: set<string>)
    | Expiring(now: nat)
    | Answering(token: nat)
    | Releasing(downloader: string)
    | Starting(token: nat)
    | Finishing(token: nat, status: Status)
    | Resizing(slots: nat)
  {
    /** A finished upload is no longer in progress. */
    predicate Valid() {
      Finishing? ==> status != InProgress
    }
  }

  function Step(s: State, e: Event): State {
    match e
    case Enqueuing(downloader, filename, realPath, size) => Enqueue(s, downloader, filename, realPath, size)
    case Pumping(now) => Pump(s, now)
    case Ranking(users) => SetPrivileged(s, users)
    case Expiring(now) => Expire(s, now)
    case Answering(token) => Answer(s, token)
    case Releasing(downloader) => Release(s, downloader)
    case Starting(token) => Serve(s, token)
    case Finishing(token, status) => Finish(s, token, status)
    case Resizing(slots) => SetSlots(s, slots)
  }

  function Run(slots: nat, events: seq<Event>): State {
    if events == [] then Fresh(slots) else Step(Run(slots, events[..|events| - 1]), events[|events| - 1])
  }

  predicate AllValid(events: seq<Event>) {
    forall i :: 0 <= i < |events| ==> events[i].Valid()
  }

  // ---- What every run keeps ----

  predicate InQueue(queue: seq<Queued>, arrival: nat) {
    exists i :: 0 <= i < |queue| && queue[i].arrival == arrival
  }

  /** Arrivals grow along the queue and every flag agrees with the privileged set. */
  predicate QueueOk(queue: seq<Queued>, privileged: set<string>, arrivals: nat) {
    && (forall i, j :: 0 <= i < j < |queue| ==> queue[i].arrival < queue[j].arrival)
    && (forall i :: 0 <= i < |queue| ==> 1 <= queue[i].arrival <= arrivals)
    && (forall i :: 0 <= i < |queue| ==> (queue[i].privileged <==> queue[i].downloader in privileged))
  }

  /** The requests that hold a token and the tokens in use belong together one to one. */
  ghost predicate Places(fates: map<nat, Fate>, offers: set<nat>, active: set<nat>) {
    && (forall a :: a in fates && fates[a].Offered? ==> fates[a].token in offers)
    && (forall a :: a in fates && fates[a].Serving? ==> fates[a].token in active)
    && (forall a, b :: a in fates && b in fates && HasToken(fates[a]) && fates[a] == fates[b] ==> a == b)
    && (forall t :: t in offers ==> Held(fates, Offered(t)))
    && (forall t :: t in active ==> Held(fates, Serving(t)))
  }

  predicate Held(fates: map<nat, Fate>, f: Fate) {
    exists a :: a in fates && fates[a] == f
  }

  /** Every arrival has a fate, and waits exactly when it is in the queue. */
  ghost predicate Lines(fates: map<nat, Fate>, queue: seq<Queued>, arrivals: nat) {
    && (forall a :: a in fates <==> 1 <= a <= arrivals)
    && (forall a :: a in fates ==> (fates[a] == Waiting <==> InQueue(queue, a)))
  }

  /** Every request ever made is in exactly one place, and every place holds a request. */
  ghost predicate Accounted(s: State) {
    Lines(s.fates, s.queue, s.arrivals) && Places(s.fates, s.offers.Keys, s.active.Keys)
  }

  predicate HasToken(f: Fate) {
    f.Offered? || f.Serving?
  }

  ghost predicate TokensOk(s: State) {
    && (forall t :: t in s.offers ==> t < s.nextToken)
    && (forall t :: t in s.active ==> t < s.nextToken)
    && s.offers.Keys !! s.active.Keys
  }

  ghost predicate Inv(s: State) {
    && QueueOk(s.queue, s.privileged, s.arrivals) && Accounted(s) && TokensOk(s)
    && InFlight(s) <= s.mostSlots && s.slots <= s.mostSlots
  }

  // ---- Preservation, step by step ----

  lemma WithoutQueue(queue: seq<Queued>, privileged: set<string>, arrivals: nat, i: nat)
    requires QueueOk(queue, privileged, arrivals) && i < |queue|
    ensures QueueOk(Without(queue, i), privileged, arrivals)
    ensures forall a :: InQueue(Without(queue, i), a) <==> InQueue(queue, a) && a != queue[i].arrival
  {
    WithoutIs(queue, i);
    hide Without, InQueue;
    forall a
      ensures InQueue(Without(queue, i), a) <==> InQueue(queue, a) && a != queue[i].arrival
    {
      WithoutHas(queue, privileged, arrivals, i, a);
    }
  }

  lemma WithoutIs(queue: seq<Queued>, i: nat)
    requires i < |queue|
    ensures |Without(queue, i)| == |queue| - 1
    ensures forall j :: 0 <= j < |queue| - 1 ==> Without(queue, i)[j] == queue[if j < i then j else j + 1]
  {
  }

  lemma WithoutHas(queue: seq<Queued>, privileged: set<string>, arrivals: nat, i: nat, a: nat)
    requires QueueOk(queue, privileged, arrivals) && i < |queue|
    ensures InQueue(Without(queue, i), a) <==> InQueue(queue, a) && a != queue[i].arrival
  {
    hide Without, QueueOk;
    WithoutIs(queue, i);
    var rest := Without(queue, i);
    if InQueue(rest, a) {
      var j :| 0 <= j < |rest| && rest[j].arrival == a;
      WasInQueue(queue, privileged, arrivals, i, j);
    }
    if InQueue(queue, a) && a != queue[i].arrival {
      var j :| 0 <= j < |queue| && queue[j].arrival == a;
      assert rest[if j < i then j else j - 1].arrival == a;
    }
  }

  lemma WasInQueue(queue: seq<Queued>, privileged: set<string>, arrivals: nat, i: nat, j: nat)
    requires QueueOk(queue, privileged, arrivals) && i < |queue| && j < |queue| - 1
    ensures InQueue(queue, Without(queue, i)[j].arrival) && Without(queue, i)[j].arrival != queue[i].arrival
  {
    WithoutIs(queue, i);
    assert queue[if j < i then j else j + 1] == Without(queue, i)[j];
  }

  lemma TakeToken(fates: map<nat, Fate>, offers: set<nat>, active: set<nat>, a: nat, t: nat)
    requires Places(fates, offers, active) && a in fates && !HasToken(fates[a]) && t !in offers
    ensures Places(fates[a := Offered(t)], offers + {t}, active)
  {
    var w := fates[a := Offered(t)];
    forall f: Fate | HasToken(f) && Held(fates, f)
      ensures Held(w, f)
    {
      var b :| b in fates && fates[b] == f;
      assert b in w && w[b] == f;
    }
    assert w[a] == Offered(t);
  }

  /** The entry taken out of the queue waits no more; the others' fates stand. */
  lemma TakeOutLine(fates: map<nat, Fate>, queue: seq<Queued>, rest: seq<Queued>, arrivals: nat, a0: nat, f: Fate)
    requires Lines(fates, queue, arrivals) && InQueue(queue, a0) && 1 <= a0 <= arrivals && f != Waiting
    requires forall a :: InQueue(rest, a) <==> InQueue(queue, a) && a != a0
    ensures Lines(fates[a0 := f], rest, arrivals) && fates[a0] == Waiting
  {
    hide InQueue;
  }

  lemma PumpOneAccounted(s: State, now: nat)
    requires s.queue != [] && QueueOk(s.queue, s.privileged, s.arrivals) && Accounted(s) && TokensOk(s)
    ensures Accounted(PumpOne(s, now))
  {
    var i := Next(s.queue);
    var a0 := s.queue[i].arrival;
    assert InQueue(s.queue, a0) && 1 <= a0 <= s.arrivals && s.nextToken !in s.offers.Keys;
    hide Next, Without, QueueOk, InQueue, Places, Lines, TokensOk;
    WithoutQueue(s.queue, s.privileged, s.arrivals, i);
    TakeOutLine(s.fates, s.queue, Without(s.queue, i), s.arrivals, a0, Offered(s.nextToken));
    assert a0 in s.fates by {
      ArrivalHasFate(s.fates, s.queue, s.arrivals, a0);
    }
    TakeToken(s.fates, s.offers.Keys, s.active.Keys, a0, s.nextToken);
    assert PumpOne(s, now).offers.Keys == s.offers.Keys + {s.nextToken};
  }

  lemma ArrivalHasFate(fates: map<nat, Fate>, queue: seq<Queued>, arrivals: nat, a: nat)
    requires Lines(fates, queue, arrivals) && 1 <= a <= arrivals
    ensures a in fates
  {
  }

  lemma PumpOneKeeps(s: State, now: nat)
    requires s.queue != [] && Inv(s) && InFlight(s) < s.slots
    ensures Inv(PumpOne(s, now)) && InFlight(PumpOne(s, now)) == InFlight(s) + 1
  {
    hide Accounted, Next, Without, QueueOk, Busy;
    PumpOneAccounted(s, now);
    WithoutQueue(s.queue, s.privileged, s.arrivals, Next(s.queue));
    assert s.nextToken !in s.offers;
    OneMore(s.offers, s.nextToken, PumpOne(s, now).offers[s.nextToken]);
  }

  /** The slot `token` is offered for the request `q`. */
  predicate HoldsOffer(s: State, q: Queued, token: nat, now: nat) {
    token in s.offers && s.offers[token] == Job(q.downloader, q.realPath, q.virtualPath, q.size, Some(now))
  }

  /** Everything a pump of `k` entries does. */
  ghost predicate Pumped(s: State, w: State, now: nat, k: nat)
    requires k <= |s.queue|
  {
    && InFlight(w) == InFlight(s) + k
    && w.queue == Remaining(s.queue, k)
    && w == s.(queue := w.queue, offers := w.offers, nextToken := s.nextToken + k, fates := w.fates)
    && (forall t :: t in s.offers ==> t in w.offers && w.offers[t] == s.offers[t])
    && HoldOffers(w, ServeOrder.Served(s.queue)[..k], s.nextToken, now)
  }

  /** The entries in `jobs` hold the offers from `first` on. */
  ghost predicate HoldOffers(s: State, jobs: seq<Queued>, first: nat, now: nat) {
    forall i :: 0 <= i < |jobs| ==> HoldsOffer(s, jobs[i], first + i, now)
  }

  lemma HoldOffersCons(s: State, q: Queued, jobs: seq<Queued>, first: nat, now: nat)
    requires HoldsOffer(s, q, first, now) && HoldOffers(s, jobs, first + 1, now)
    ensures HoldOffers(s, [q] + jobs, first, now)
  {
    var all := [q] + jobs;
    forall i | 0 <= i < |all|
      ensures HoldsOffer(s, all[i], first + i, now)
    {
      if i > 0 {
        assert HoldsOffer(s, jobs[i - 1], first + 1 + (i - 1), now);
      }
    }
  }

  lemma PumpedMore(s: State, v: State, w: State, now: nat, k: nat)
    requires 0 < k <= |s.queue| && v == PumpOne(s, now) && InFlight(v) == InFlight(s) + 1
    requires s.nextToken !in s.offers && Pumped(v, w, now, k - 1)
    ensures Pumped(s, w, now, k)
  {
    hide InFlight, Without, Next, ServeOrder.Served, HoldOffers;
    var i := Next(s.queue);
    assert HoldsOffer(v, s.queue[i], s.nextToken, now);
    ServedPrefix(s.queue, k);
    HoldOffersCons(w, s.queue[i], ServeOrder.Served(v.queue)[..k - 1], s.nextToken, now);
  }

  lemma ServedPrefix(queue: seq<Queued>, k: nat)
    requires 0 < k <= |queue|
    ensures ServeOrder.Served(queue)[..k]
         == [queue[Next(queue)]] + ServeOrder.Served(Without(queue, Next(queue)))[..k - 1]
  {
    hide Next, Without;
    ConsPrefix(queue[Next(queue)], ServeOrder.Served(Without(queue, Next(queue))), k);
  }

  lemma ConsPrefix<T>(x: T, rest: seq<T>, k: nat)
    requires 0 < k <= |rest| + 1
    ensures ([x] + rest)[..k] == [x] + rest[..k - 1]
  {
  }

  lemma PumpedNone(s: State, now: nat)
    ensures Pumped(s, s, now, 0)
  {
  }

  /** A pump serves exactly the first entries of the serve order, fills the free slots and no more. */
  lemma {:induction false} PumpServes(s: State, now: nat, k: nat)
    requires Inv(s) && k <= |s.queue| && InFlight(s) + k <= s.slots
    ensures Inv(PumpMany(s, now, k)) && Pumped(s, PumpMany(s, now, k), now, k)
    decreases k
  {
    hide TokensOk, Accounted, QueueOk, InFlight, PumpOne, Pumped, Remaining, ServeOrder.Served;
    if k == 0 {
      PumpedNone(s, now);
    } else {
      PumpOneKeeps(s, now);
      var v := PumpOne(s, now);
      PumpOneFields(s, now);
      NextTokenFree(s);
      hide Inv;
      PumpServes(v, now, k - 1);
      PumpedMore(s, v, PumpMany(v, now, k - 1), now, k);
    }
  }

  lemma NextTokenFree(s: State)
    requires Inv(s)
    ensures s.nextToken !in s.offers
  {
    hide Accounted, QueueOk, InFlight;
  }

  lemma PumpOneFields(s: State, now: nat)
    requires s.queue != []
    ensures |PumpOne(s, now).queue| == |s.queue| - 1 && PumpOne(s, now).slots == s.slots
  {
  }

  lemma PumpKeeps(s: State, now: nat)
    requires Inv(s)
    ensures Inv(Pump(s, now)) && Pumped(s, Pump(s, now), now, Servable(s))
  {
    if InFlight(s) < s.slots {
      PumpServes(s, now, Servable(s));
    } else {
      PumpedNone(s, now);
    }
  }

  lemma EnqueueKeeps(s: State, downloader: string, filename: string, realPath: string, size: nat)
    requires Inv(s)
    ensures Inv(Enqueue(s, downloader, filename, realPath, size))
  {
    hide QueueOk, Lines, Places, TokensOk, Busy;
    var w := Enqueue(s, downloader, filename, realPath, size);
    EnqueueQueue(s.queue, w.queue, s.privileged, s.arrivals);
    EnqueueLine(s.fates, s.queue, w.queue, s.arrivals);
    PlacesWiden(s.fates, s.offers.Keys, s.active.Keys, s.arrivals + 1);
    EnqueueTokens(s, w);
  }

  lemma EnqueueQueue(queue: seq<Queued>, more: seq<Queued>, privileged: set<string>, arrivals: nat)
    requires QueueOk(queue, privileged, arrivals)
    requires |more| == |queue| + 1 && more[..|queue|] == queue && more[|queue|].arrival == arrivals + 1
    requires more[|queue|].privileged <==> more[|queue|].downloader in privileged
    ensures QueueOk(more, privileged, arrivals + 1)
    ensures forall i :: 0 <= i < |queue| ==> queue[i].arrival <= arrivals
  {
    assert forall i :: 0 <= i < |queue| ==> more[i] == queue[i];
  }

  lemma EnqueueTokens(s: State, w: State)
    requires TokensOk(s) && w.offers == s.offers && w.active == s.active && w.nextToken == s.nextToken
    ensures TokensOk(w)
  {
  }

  lemma EnqueueLine(fates: map<nat, Fate>, queue: seq<Queued>, more: seq<Queued>, arrivals: nat)
    requires Lines(fates, queue, arrivals)
    requires |more| == |queue| + 1 && more[..|queue|] == queue && more[|queue|].arrival == arrivals + 1
    requires forall i :: 0 <= i < |queue| ==> queue[i].arrival <= arrivals
    ensures Lines(fates[arrivals + 1 := Waiting], more, arrivals + 1)
    ensures arrivals + 1 !in fates
  {
    forall a
      ensures InQueue(more, a) <==> InQueue(queue, a) || a == arrivals + 1
    {
      if InQueue(more, a) {
        var i :| 0 <= i < |more| && more[i].arrival == a;
        assert i < |queue| ==> queue[i].arrival == a;
      }
      if InQueue(queue, a) {
        var i :| 0 <= i < |queue| && queue[i].arrival == a;
        assert more[i].arrival == a;
      }
      assert more[|queue|].arrival == arrivals + 1;
    }
  }

  lemma PlacesWiden(fates: map<nat, Fate>, offers: set<nat>, active: set<nat>, a: nat)
    requires Places(fates, offers, active) && a !in fates
    ensures Places(fates[a := Waiting], offers, active)
  {
    var w := fates[a := Waiting];
    forall f: Fate | Held(fates, f)
      ensures Held(w, f)
    {
      var b :| b in fates && fates[b] == f;
      assert b in w && w[b] == f;
    }
  }

  lemma RankKeeps(s: State, users: set<string>)
    requires Inv(s)
    ensures Inv(SetPrivileged(s, users))
  {
    var queue := Reranked(s.queue, users);
    forall a
      ensures InQueue(queue, a) <==> InQueue(s.queue, a)
    {
      if InQueue(s.queue, a) {
        var i :| 0 <= i < |s.queue| && s.queue[i].arrival == a;
        assert queue[i].arrival == a;
      }
    }
    hide Places, TokensOk, Busy;
  }

  lemma MarkedPlaces(fates: map<nat, Fate>, offers: set<nat>, active: set<nat>, tokens: set<nat>, to: Fate)
    requires Places(fates, offers, active) && !HasToken(to)
    ensures Places(Marked(fates, tokens, to), offers - tokens, active)
  {
    var w := Marked(fates, tokens, to);
    forall t | t in offers - tokens
      ensures Held(w, Offered(t))
    {
      var b :| b in fates && fates[b] == Offered(t);
      assert b in w && w[b] == Offered(t);
    }
    forall t | t in active
      ensures Held(w, Serving(t))
    {
      var b :| b in fates && fates[b] == Serving(t);
      assert b in w && w[b] == Serving(t);
    }
  }

  lemma MarkedLines(fates: map<nat, Fate>, tokens: set<nat>, to: Fate, queue: seq<Queued>, arrivals: nat)
    requires Lines(fates, queue, arrivals) && to != Waiting
    ensures Lines(Marked(fates, tokens, to), queue, arrivals)
  {
  }

  lemma FewerOffers(m: map<nat, Job>, tokens: set<nat>)
    ensures (m - tokens).Keys == m.Keys - tokens && |m - tokens| <= |m|
  {
    assert |(m - tokens).Keys| + |m.Keys * tokens| == |m.Keys| by {
      assert m.Keys == (m - tokens).Keys + m.Keys * tokens;
    }
  }

  lemma ExpireKeeps(s: State, now: nat)
    requires Inv(s)
    ensures Inv(Expire(s, now))
  {
    var tokens := Stale(s, now);
    hide Stale, QueueOk, Lines, Places, Marked, Busy;
    MarkedPlaces(s.fates, s.offers.Keys, s.active.Keys, tokens, Expired);
    MarkedLines(s.fates, tokens, Expired, s.queue, s.arrivals);
    FewerOffers(s.offers, tokens);
  }

  lemma AnswerKeeps(s: State, token: nat)
    requires Inv(s)
    ensures Inv(Answer(s, token))
  {
    hide QueueOk, Lines, Places, Busy;
    if token in s.offers {
      assert Answer(s, token).offers.Keys == s.offers.Keys;
      assert |Answer(s, token).offers.Keys| == |s.offers.Keys|;
    }
  }

  lemma {:induction false} KeptMembers(queue: seq<Queued>, d: string)
    ensures forall q :: q in Kept(queue, d) <==> q in queue && q.downloader != d
  {
    if queue != [] {
      var n := |queue| - 1;
      KeptMembers(queue[..n], d);
      assert queue == queue[..n] + [queue[n]];
    }
  }

  lemma {:induction false} KeptOrdered(queue: seq<Queued>, d: string)
    requires forall i, j :: 0 <= i < j < |queue| ==> queue[i].arrival < queue[j].arrival
    ensures forall i, j :: 0 <= i < j < |Kept(queue, d)| ==> Kept(queue, d)[i].arrival < Kept(queue, d)[j].arrival
  {
    if queue != [] {
      var n := |queue| - 1;
      KeptOrdered(queue[..n], d);
      KeptMembers(queue[..n], d);
      var k := Kept(queue[..n], d);
      forall j | 0 <= j < |k|
        ensures k[j].arrival < queue[n].arrival
      {
        assert k[j] in queue[..n];
      }
    }
  }

  lemma KeptQueue(queue: seq<Queued>, privileged: set<string>, arrivals: nat, d: string)
    requires QueueOk(queue, privileged, arrivals)
    ensures QueueOk(Kept(queue, d), privileged, arrivals)
  {
    KeptOrdered(queue, d);
    KeptMembers(queue, d);
    var k := Kept(queue, d);
    hide Kept;
    forall j | 0 <= j < |k|
      ensures 1 <= k[j].arrival <= arrivals && (k[j].privileged <==> k[j].downloader in privileged)
    {
      assert k[j] in queue;
      var i :| 0 <= i < |queue| && queue[i] == k[j];
    }
  }

  lemma KeptLine(queue: seq<Queued>, privileged: set<string>, arrivals: nat, d: string, a: nat)
    requires QueueOk(queue, privileged, arrivals)
    ensures InQueue(Kept(queue, d), a) <==> InQueue(queue, a) && a !in QueuedBy(queue, d)
  {
    KeptMembers(queue, d);
    var k := Kept(queue, d);
    hide Kept;
    if InQueue(k, a) {
      var j :| 0 <= j < |k| && k[j].arrival == a;
      assert k[j] in queue;
      var i :| 0 <= i < |queue| && queue[i] == k[j];
    }
    if InQueue(queue, a) && a !in QueuedBy(queue, d) {
      var i :| 0 <= i < |queue| && queue[i].arrival == a;
      assert queue[i] in k;
      var j :| 0 <= j < |k| && k[j] == queue[i];
      assert k[j].arrival == a;
    }
  }

  lemma ReleaseLines(s: State, d: string)
    requires QueueOk(s.queue, s.privileged, s.arrivals) && Accounted(s)
    ensures Lines(Release(s, d).fates, Release(s, d).queue, s.arrivals)
  {
    var w := Release(s, d);
    hide OfferedTo, Kept, QueuedBy, QueueOk;
    forall a
      ensures InQueue(w.queue, a) <==> InQueue(s.queue, a) && a !in QueuedBy(s.queue, d)
    {
      KeptLine(s.queue, s.privileged, s.arrivals, d, a);
    }
    hide InQueue;
  }

  lemma ReleasePlaces(s: State, d: string)
    requires Accounted(s)
    ensures Places(Release(s, d).fates, s.offers.Keys - OfferedTo(s, d), s.active.Keys)
  {
    var tokens := OfferedTo(s, d);
    MarkedPlaces(s.fates, s.offers.Keys, s.active.Keys, tokens, Released);
    var m, w := Marked(s.fates, tokens, Released), Release(s, d).fates;
    forall a | a in s.fates
      ensures HasToken(m[a]) ==> w[a] == m[a]
      ensures HasToken(w[a]) ==> w[a] == m[a]
    {
      if a in QueuedBy(s.queue, d) {
        assert InQueue(s.queue, a);
      }
    }
    SamePlaces(m, w, s.offers.Keys - tokens, s.active.Keys);
  }

  lemma SamePlaces(m: map<nat, Fate>, w: map<nat, Fate>, offers: set<nat>, active: set<nat>)
    requires Places(m, offers, active) && m.Keys == w.Keys
    requires forall a :: a in m ==> (HasToken(m[a]) || HasToken(w[a]) ==> w[a] == m[a])
    ensures Places(w, offers, active)
  {
    forall f: Fate | HasToken(f) && Held(m, f)
      ensures Held(w, f)
    {
      var b :| b in m && m[b] == f;
      assert b in w && w[b] == f;
    }
  }

  lemma ReleaseKeeps(s: State, d: string)
    requires Inv(s)
    ensures Inv(Release(s, d))
  {
    hide QueueOk, Lines, Places, Busy, Release, TokensOk, InFlight;
    KeptQueue(s.queue, s.privileged, s.arrivals, d);
    ReleaseLines(s, d);
    ReleasePlaces(s, d);
    ReleaseTokens(s, d);
    ReleaseIs(s, d);
  }

  lemma ReleaseTokens(s: State, d: string)
    requires TokensOk(s)
    ensures TokensOk(Release(s, d)) && InFlight(Release(s, d)) <= InFlight(s)
  {
    hide Busy, Kept, OfferedTo, QueuedBy, Marked;
    FewerOffers(s.offers, OfferedTo(s, d));
  }

  lemma ReleaseIs(s: State, d: string)
    ensures var w := Release(s, d);
            w == s.(queue := Kept(s.queue, d), offers := w.offers, fates := w.fates)
            && w.offers.Keys == s.offers.Keys - OfferedTo(s, d)
  {
    hide Busy, Kept, OfferedTo, QueuedBy, Marked;
    FewerOffers(s.offers, OfferedTo(s, d));
  }

  lemma ServePlaces(fates: map<nat, Fate>, offers: set<nat>, active: set<nat>, t: nat)
    requires Places(fates, offers, active) && t in offers && t !in active
    ensures Places(Marked(fates, {t}, Serving(t)), offers - {t}, active + {t})
  {
    var w := Marked(fates, {t}, Serving(t));
    ServeHeld(fates, offers, active, t);
    ServeOnce(fates, offers, active, t);
    hide Held;
  }

  /** Nobody else comes to hold a token when the offer of `t` becomes its upload. */
  lemma ServeOnce(fates: map<nat, Fate>, offers: set<nat>, active: set<nat>, t: nat)
    requires Places(fates, offers, active) && t in offers && t !in active
    ensures var w := Marked(fates, {t}, Serving(t));
            forall a, b :: a in w && b in w && HasToken(w[a]) && w[a] == w[b] ==> a == b
  {
    hide Held;
  }

  lemma ServeHeld(fates: map<nat, Fate>, offers: set<nat>, active: set<nat>, t: nat)
    requires Places(fates, offers, active) && t in offers && t !in active
    ensures var w := Marked(fates, {t}, Serving(t));
            && (forall u :: u in offers - {t} ==> Held(w, Offered(u)))
            && (forall u :: u in active + {t} ==> Held(w, Serving(u)))
  {
    var w := Marked(fates, {t}, Serving(t));
    forall u | u in offers - {t}
      ensures Held(w, Offered(u))
    {
      assert Held(fates, Offered(u));
      var b :| b in fates && fates[b] == Offered(u);
      assert b in w && w[b] == Offered(u);
    }
    forall u | u in active + {t}
      ensures Held(w, Serving(u))
    {
      assert Held(fates, if u == t then Offered(t) else Serving(u));
      var b :| b in fates && fates[b] == if u == t then Offered(t) else Serving(u);
      assert b in w && w[b] == Serving(u);
    }
  }

  lemma ServeCount(s: State, token: nat)
    requires token in s.offers && token !in s.active
    ensures InFlight(Serve(s, token)) == InFlight(s)
  {
    var w := Serve(s, token);
    hide Marked;
    assert w.offers.Keys == s.offers.Keys - {token};
    assert |w.offers.Keys| == |s.offers.Keys| - 1;
    assert Busy(w.active) == Busy(s.active) + {token};
  }

  lemma ServeKeeps(s: State, token: nat)
    requires Inv(s)
    ensures Inv(Serve(s, token)) && InFlight(Serve(s, token)) == InFlight(s)
  {
    hide QueueOk, Lines, Places, Marked, InFlight;
    if token in s.offers {
      ServeCount(s, token);
      var w := Serve(s, token);
      ServePlaces(s.fates, s.offers.Keys, s.active.Keys, token);
      MarkedLines(s.fates, {token}, Serving(token), s.queue, s.arrivals);
      assert w.offers.Keys == s.offers.Keys - {token};
      assert w.active.Keys == s.active.Keys + {token};
    }
  }

  lemma FinishCount(active: map<nat, Upload>, token: nat, done: Upload)
    requires token in active && done.status != InProgress
    ensures |Busy(active[token := done])| <= |Busy(active)|
  {
    assert Busy(active[token := done]) == Busy(active) - {token};
    assert token in Busy(active) ==> Busy(active) == Busy(active[token := done]) + {token};
  }

  lemma FinishKeeps(s: State, token: nat, status: Status)
    requires Inv(s) && status != InProgress
    ensures Inv(Finish(s, token, status))
  {
    hide QueueOk, Lines, Places, Busy;
    if token in s.active {
      FinishCount(s.active, token, s.active[token].(status := status));
      assert Finish(s, token, status).active.Keys == s.active.Keys;
    }
  }

  lemma StepKeeps(s: State, e: Event)
    requires Inv(s) && e.Valid()
    ensures Inv(Step(s, e))
  {
    hide Inv, Pump, Enqueue, SetPrivileged, Expire, Answer, Release, Serve, Finish;
    match e
    case Enqueuing(d, f, p, n) => EnqueueKeeps(s, d, f, p, n);
    case Pumping(now) => PumpKeeps(s, now);
    case Ranking(users) => RankKeeps(s, users);
    case Expiring(now) => ExpireKeeps(s, now);
    case Answering(token) => AnswerKeeps(s, token);
    case Releasing(d) => ReleaseKeeps(s, d);
    case Starting(token) => ServeKeeps(s, token);
    case Finishing(token, status) => FinishKeeps(s, token, status);
    case Resizing(slots) => SlotsKeep(s, slots);
  }

  lemma SlotsKeep(s: State, slots: nat)
    requires Inv(s)
    ensures Inv(SetSlots(s, slots))
  {
  }

  /** Every reachable scheduler accounts for every request and never exceeds the most slots it was given. */
  lemma {:induction false} EveryRunKeeps(slots: nat, events: seq<Event>)
    requires AllValid(events)
    ensures Inv(Run(slots, events))
  {
    if events != [] {
      EveryRunKeeps(slots, events[..|events| - 1]);
      StepKeeps(Run(slots, events[..|events| - 1]), events[|events| - 1]);
    }
  }

  // ---- What it means ----

  /** After a pump nobody waits or no slot is free, and the cap is not exceeded by it. */
  lemma PumpFillsTheSlots(s: State, now: nat)
    requires Inv(s)
    ensures var w := Pump(s, now);
            && (w.queue == [] || InFlight(w) >= w.slots)
            && InFlight(w) <= (if InFlight(s) > s.slots then InFlight(s) else s.slots)
  {
    PumpKeeps(s, now);
  }

  /** In any run, a pump leaves no donor waiting behind a plain peer it served, nor anyone behind a later equal. */
  lemma PumpIsFair(slots: nat, events: seq<Event>, now: nat, served: Queued, waiting: Queued)
    requires AllValid(events)
    requires var s := Run(slots, events);
             && served in ServeOrder.Served(s.queue)[..Servable(s)]
             && waiting in Pump(s, now).queue
    ensures var s := Run(slots, events);
            && (waiting.downloader in s.privileged ==> served.downloader in s.privileged)
            && ((waiting.downloader in s.privileged <==> served.downloader in s.privileged) ==>
                  waiting.arrival >= served.arrival)
  {
    EveryRunKeeps(slots, events);
    var s := Run(slots, events);
    PumpKeeps(s, now);
    NoOvertaking(s.queue, Servable(s), waiting, served);
    NobodyIsLost(s.queue, Servable(s));
    InMultisets(s.queue, ServeOrder.Served(s.queue)[..Servable(s)], Remaining(s.queue, Servable(s)), served, waiting);
    FlagsAgree(s, served);
    FlagsAgree(s, waiting);
  }

  lemma InMultisets(queue: seq<Queued>, a: seq<Queued>, b: seq<Queued>, x: Queued, y: Queued)
    requires multiset(queue) == multiset(a) + multiset(b) && x in a && y in b
    ensures x in queue && y in queue
  {
    assert x in multiset(queue) && y in multiset(queue);
  }

  lemma FlagsAgree(s: State, q: Queued)
    requires Inv(s) && q in s.queue
    ensures q.privileged <==> q.downloader in s.privileged
  {
    var i :| 0 <= i < |s.queue| && s.queue[i] == q;
  }

  /** Where the first entry for this file of this peer stands among `jobs`. */
  function Position(jobs: seq<Queued>, downloader: string, filename: string): (p: Option<nat>)
    ensures p.Some? ==>
              && p.value < |jobs| && IsFor(jobs[p.value], downloader, filename)
              && forall i :: 0 <= i < p.value ==> !IsFor(jobs[i], downloader, filename)
    ensures p.None? ==> forall i :: 0 <= i < |jobs| ==> !IsFor(jobs[i], downloader, filename)
  {
    if jobs == [] then None
    else
      var n := |jobs| - 1;
      var p := Position(jobs[..n], downloader, filename);
      if p.Some? then p else if IsFor(jobs[n], downloader, filename) then Some(n) else None
  }

  predicate IsFor(q: Queued, downloader: string, filename: string) {
    q.downloader == downloader && q.virtualPath == filename
  }

  lemma PositionIs(jobs: seq<Queued>, d: string, f: string, p: nat)
    requires p < |jobs| && IsFor(jobs[p], d, f) && forall i :: 0 <= i < p ==> !IsFor(jobs[i], d, f)
    ensures Position(jobs, d, f) == Some(p)
  {
    var q := Position(jobs, d, f);
    assert q.Some?;
    assert !(q.value < p) && !(p < q.value);
  }

  /** A pump moves everyone still waiting forward by exactly as many places as it served. */
  lemma PumpMovesEveryoneUp(s: State, now: nat, d: string, f: string)
    requires Inv(s)
    ensures var k := Servable(s);
            var before := Position(ServeOrder.Served(s.queue), d, f);
            var after := Position(ServeOrder.Served(Pump(s, now).queue), d, f);
            && (before.None? ==> after.None?)
            && (before.Some? && before.value >= k ==> after == Some(before.value - k))
  {
    hide Position, Inv, Pump, InFlight, HoldOffers, ServeOrder.Served, Remaining, Servable;
    PumpKeeps(s, now);
    var k := Servable(s);
    ServedThenRemaining(s.queue, k);
    DropPosition(ServeOrder.Served(s.queue), k, d, f);
  }

  lemma DropPosition(jobs: seq<Queued>, k: nat, d: string, f: string)
    requires k <= |jobs|
    ensures Position(jobs, d, f).None? ==> Position(jobs[k..], d, f).None?
    ensures Position(jobs, d, f).Some? && Position(jobs, d, f).value >= k ==>
              Position(jobs[k..], d, f) == Some(Position(jobs, d, f).value - k)
  {
    var p := Position(jobs, d, f);
    if p.Some? && p.value >= k {
      PositionIs(jobs[k..], d, f, p.value - k);
    }
  }
}
