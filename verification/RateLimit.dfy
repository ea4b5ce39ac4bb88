/**
 The shared token bucket that paces transfers. Each turn of `take`'s loop loads the
 rate and then runs under the bucket's lock. The part under the lock is one step
 here, with the rate that was loaded before it as an argument; others may run, and
 set another rate, between the two, and while the taker sleeps. Instants are
 nanoseconds.
 */
module RateLimit {
  import opened Basics
  import opened Wrappers

  const TICK: nat := 100_000_000
  const TICKS_PER_SECOND: nat := 10

  datatype Bucket = Bucket(tokens: nat, refilled: Option<nat>)

  /** What one refill puts into the bucket, whatever was left in it. */
  function Quota(rate: nat): (q: nat)
    ensures q >= 1
  {
    if rate / TICKS_PER_SECOND > 1 then rate / TICKS_PER_SECOND else 1
  }

  function Since(b: Bucket, now: nat): nat {
    if b.refilled.None? then TICK
    else Elapsed(now, b.refilled.value)
  }

  predicate RefillDue(b: Bucket, now: nat) {
    Since(b, now) >= TICK
  }

  function Refilled(b: Bucket, rate: nat, now: nat): Bucket {
    if RefillDue(b, now) then Bucket(Quota(rate), Some(now)) else b
  }

  /** One turn of the loop with a rate set: the grant, or nothing and the taker sleeps. */
  function Turn(b: Bucket, rate: nat, want: nat, now: nat): (Option<nat>, Bucket) {
    var r := Refilled(b, rate, now);
    if r.tokens > 0 then
      var grant := if r.tokens < want then r.tokens else want;
      (Some(grant), r.(tokens := r.tokens - grant))
    else (None, r)
  }

  class RateLimit {
    var bytesPerSecond: nat
    var tokens: nat
    var refilled: Option<nat>

    ghost function State(): Limiter
      reads this
    {
      Limiter(bytesPerSecond, Bucket(tokens, refilled))
    }

    constructor ()
      ensures State() == Limiter(0, Bucket(0, None))
    {
      bytesPerSecond, tokens, refilled := 0, 0, None;
    }

    method Set(rate: nat)
      modifies this
      ensures State() == old(State()).(rate := rate)
    {
      bytesPerSecond := rate;
    }

    /** The load that comes before the lock. */
    method Load() returns (rate: nat)
      ensures rate == State().rate
    {
      rate := bytesPerSecond;
    }

    /** One turn of `take`, at the rate it loaded. */
    method TryTake(rate: nat, want: nat, now: nat) returns (grant: Option<nat>)
      modifies this
      ensures (grant, State()) == Take(old(State()), rate, want, now)
    {
      if rate == 0 {
        return Some(want);
      }
      var since := if refilled.None? then TICK else Elapsed(now, refilled.value);
      if since >= TICK {
        tokens := if rate / TICKS_PER_SECOND > 1 then rate / TICKS_PER_SECOND else 1;
        refilled := Some(now);
      }
      if tokens > 0 {
        var amount := if tokens < want then tokens else want;
        tokens := tokens - amount;
        return Some(amount);
      }
      grant := None;
    }

    method GiveBack(rate: nat, unused: nat)
      modifies this
      ensures State() == Return(old(State()), rate, unused)
    {
      if unused == 0 || rate == 0 {
        return;
      }
      tokens := tokens + unused;
    }
  }

  // ---- Runs ----

  datatype Limiter = Limiter(rate: nat, bucket: Bucket)

  function Take(l: Limiter, rate: nat, want: nat, now: nat): (Option<nat>, Limiter) {
    if rate == 0 then (Some(want), l)
    else
      var (grant, bucket) := Turn(l.bucket, rate, want, now);
      (grant, l.(bucket := bucket))
  }

  function Return(l: Limiter, rate: nat, unused: nat): Limiter {
    if unused == 0 || rate == 0 then l
    else l.(bucket := l.bucket.(tokens := l.bucket.tokens + unused))
  }

  /**
   What any taker, or whoever sets the rate, may do next. `loaded` is the rate as the
   taker found it, which need not be the rate any more. Bytes handed back were `paid`
   for if the taker had them under a rate.
   */
  datatype Event =
    | Taking(loaded: nat, want: nat, now: nat)
    | Returning(loaded: nat, unused: nat, paid: bool)
    | Setting(rate: nat)

  /**
   The books: bytes granted under a rate and with none; paid bytes handed back;
   free bytes that went into the bucket; the refills and what they allowed; and
   tokens that were lost, to a refill on top of them or to a return that found no
   rate set.
   */
  datatype Ledger = Ledger(
    granted: nat,
    unlimited: nat,
    returned: nat,
    freed: nat,
    refills: nat,
    allowed: nat,
    lost: nat)

  datatype World = World(limiter: Limiter, ledger: Ledger)

  const START := World(Limiter(0, Bucket(0, None)), Ledger(0, 0, 0, 0, 0, 0, 0))

  function Step(w: World, e: Event): World {
    var l, g := w.limiter, w.ledger;
    match e
    case Taking(rate, want, now) =>
      var (grant, l') := Take(l, rate, want, now);
      if rate == 0 then World(l', g.(unlimited := g.unlimited + want))
      else
        var refill := RefillDue(l.bucket, now);
        World(l', g.(
          granted := g.granted + (if grant.Some? then grant.value else 0),
          refills := g.refills + (if refill then 1 else 0),
          allowed := g.allowed + (if refill then Quota(rate) else 0),
          lost := g.lost + (if refill then l.bucket.tokens else 0)))
    case Returning(rate, unused, paid) =>
      World(Return(l, rate, unused), g.(
        returned := g.returned + (if paid then unused else 0),
        freed := g.freed + (if !paid && rate != 0 then unused else 0),
        lost := g.lost + (if paid && rate == 0 then unused else 0)))
    case Setting(rate) => World(l.(rate := rate), g)
  }

  function Run(w: World, events: seq<Event>): World {
    if events == [] then w else Step(Run(w, events[..|events| - 1]), events[|events| - 1])
  }

  /** Every token that ever was in the bucket is accounted for. */
  predicate Balanced(w: World) {
    var g := w.ledger;
    g.granted + w.limiter.bucket.tokens + g.lost == g.allowed + g.freed + g.returned
  }

  /** What was used under a rate is no more than the refills allowed. */
  predicate LimitKept(w: World) {
    w.ledger.granted - w.ledger.returned <= w.ledger.allowed
  }

  /** However takers, returns and settings of the rate follow one another, the books balance. */
  lemma {:induction false} EveryRunBalances(events: seq<Event>)
    ensures Balanced(Run(START, events))
  {
    if events != [] {
      EveryRunBalances(events[..|events| - 1]);
    }
  }

  /**
   The limit is kept exactly as long as the free bytes let in do not outweigh the
   tokens unused and lost; always, if none are let in.
   */
  lemma LimitKeptExactlyWhen(events: seq<Event>)
    ensures var w := Run(START, events);
            && (LimitKept(w) <==> w.ledger.freed <= w.limiter.bucket.tokens + w.ledger.lost)
            && (w.ledger.freed == 0 ==> LimitKept(w))
  {
    EveryRunBalances(events);
    hide Run;
  }

  /** Free bytes handed back under a rate, and taken again before the next refill. */
  function FreeRide(rate: nat, free: nat, want: nat, now: nat): seq<Event> {
    [Returning(rate, free, false), Taking(rate, want, now)]
  }

  /**
   After any run, free bytes that are handed back and taken with what is left in
   the bucket break the limit exactly when, with those let in before, they are more
   than the tokens lost.
   */
  lemma FreeBytesBreakTheLimit(events: seq<Event>, rate: nat, free: nat, want: nat, now: nat)
    requires var b := Run(START, events).limiter.bucket;
             rate > 0 && !RefillDue(b, now) && 0 < b.tokens + free <= want
    ensures var g := Run(START, events).ledger;
            LimitKept(Run(START, events + FreeRide(rate, free, want, now))) <==> g.freed + free <= g.lost
  {
    var w := Run(START, events);
    var more := events + [Returning(rate, free, false)];
    RunSnoc(events, Returning(rate, free, false));
    RunSnoc(more, Taking(rate, want, now));
    assert events + FreeRide(rate, free, want, now) == more + [Taking(rate, want, now)];
    EveryRunBalances(events);
    hide Run;
  }

  /** At every moment no more has been handed back than was granted, of either kind. */
  predicate Honest(events: seq<Event>) {
    forall n :: 0 <= n <= |events| ==>
      var g := Run(START, events[..n]).ledger; g.returned <= g.granted && g.freed <= g.unlimited
  }

  /** The instants of the takes never run backwards. */
  predicate Monotone(events: seq<Event>) {
    forall i, j :: 0 <= i < j < |events| && events[i].Taking? && events[j].Taking? ==> events[i].now <= events[j].now
  }

  predicate Within(events: seq<Event>, first: nat, last: nat) {
    forall i :: 0 <= i < |events| && events[i].Taking? ==> first <= events[i].now <= last
  }

  /** Every taker found a rate set, and none above this one. */
  predicate RatesUpTo(events: seq<Event>, rate: nat) {
    forall i :: 0 <= i < |events| && events[i].Taking? ==> 0 < events[i].loaded <= rate
  }

  lemma {:induction false} RefillsAreSpaced(events: seq<Event>, first: nat, last: nat)
    requires Monotone(events) && Within(events, first, last) && first <= last
    ensures var w := Run(START, events);
            && (w.ledger.refills == 0 <==> w.limiter.bucket.refilled.None?)
            && (w.ledger.refills > 0 ==>
                  && first <= w.limiter.bucket.refilled.value <= last
                  && (w.ledger.refills - 1) * TICK <= w.limiter.bucket.refilled.value - first
                  && exists i :: 0 <= i < |events| && events[i].Taking? && events[i].now == w.limiter.bucket.refilled.value)
  {
    if events != [] {
      var n := |events| - 1;
      var front := events[..n];
      RefillsAreSpaced(front, first, last);
      var w := Run(START, front);
      if w.ledger.refills > 0 {
        var i :| 0 <= i < |front| && front[i].Taking? && front[i].now == w.limiter.bucket.refilled.value;
        assert events[i] == front[i];
      }
      assert events[n] == events[|events| - 1];
    }
  }

  lemma {:induction false} RatesAllow(events: seq<Event>, rate: nat)
    requires RatesUpTo(events, rate)
    ensures var g := Run(START, events).ledger; g.allowed <= Quota(rate) * g.refills && g.unlimited == 0
  {
    if events != [] {
      var n := |events| - 1;
      RatesAllow(events[..n], rate);
      var g := Run(START, events[..n]).ledger;
      assert Quota(rate) * (g.refills + 1) == Quota(rate) * g.refills + Quota(rate);
      assert events[n].Taking? ==> Quota(events[n].loaded) <= Quota(rate);
    }
  }

  lemma TickCount(refills: nat, span: nat)
    requires refills > 0 ==> (refills - 1) * TICK <= span
    ensures refills <= span / TICK + 1
  {
  }

  /**
   However many takers share the bucket, however their turns interleave and however
   the rate is changed meanwhile: if no taker finds it lifted or above `rate` bytes a
   second, and takers hand back only what they had, then the bytes used over a span
   of nanoseconds are at most a tenth of the rate, or one byte if that is more, for
   every tenth of a second of it and one more.
   */
  lemma RateIsKept(events: seq<Event>, rate: nat, first: nat, last: nat)
    requires RatesUpTo(events, rate) && Monotone(events) && Within(events, first, last) && first <= last
    requires Honest(events)
    ensures var g := Run(START, events).ledger;
            var used := g.granted - g.returned;
            && used <= Quota(rate) * ((last - first) / TICK + 1)
            && (rate >= 10 ==> 10 * used <= rate * ((last - first) / 100_000_000 + 1))
            && (rate < 10 ==> used <= (last - first) / 100_000_000 + 1)
  {
    hide Run, RatesUpTo, Monotone, Within, Quota, Honest;
    var w := Run(START, events);
    NothingFreed(events, rate);
    EveryRunBalances(events);
    RatesAllow(events, rate);
    RefillsAreSpaced(events, first, last);
    TickCount(w.ledger.refills, last - first);
    MultiplyAtMost(Quota(rate), w.ledger.refills, (last - first) / TICK + 1);
    InTenths(rate, w.ledger.granted - w.ledger.returned, (last - first) / TICK + 1);
  }

  lemma InTenths(rate: nat, used: int, ticks: nat)
    requires used <= Quota(rate) * ticks
    ensures rate >= 10 ==> 10 * used <= rate * ticks
    ensures rate < 10 ==> used <= ticks
  {
    if rate >= 10 {
      assert 10 * Quota(rate) <= rate;
      MultiplyAtMost(ticks, 10 * Quota(rate), rate);
      assert ticks * (10 * Quota(rate)) == 10 * (Quota(rate) * ticks);
    }
  }

  /**
   One turn at a rate of so many bytes a second: a tenth of a second after the last
   refill, or at the first take, the bucket is filled anew with a tenth of the rate, or
   one byte if that is more, whatever was left in it. The taker gets the lesser of
   what it wants and what there is, or waits if there is nothing.
   */
  lemma GrantIs(l: Limiter, rate: nat, want: nat, now: nat)
    requires rate > 0 && (l.bucket.refilled.Some? ==> l.bucket.refilled.value <= now)
    ensures var (grant, after) := Take(l, rate, want, now);
            var due := l.bucket.refilled.None? || now >= l.bucket.refilled.value + 100_000_000;
            var there := if !due then l.bucket.tokens else if rate < 10 then 1 else rate / 10;
            && grant == (if there == 0 then None else if want < there then Some(want) else Some(there))
            && after.bucket.tokens == there - grant.GetOr(0)
            && after.bucket.refilled == (if due then Some(now) else l.bucket.refilled)
            && after.rate == l.rate
  {
  }

  /** With the limit lifted a taker gets all it wants, and what it hands back goes nowhere; otherwise that is in the bucket. */
  lemma ReturnIs(l: Limiter, rate: nat, want: nat, unused: nat, now: nat)
    ensures rate == 0 ==> Take(l, rate, want, now) == (Some(want), l) && Return(l, rate, unused) == l
    ensures rate > 0 ==> Return(l, rate, unused).bucket.tokens == l.bucket.tokens + unused
                         && Return(l, rate, unused).bucket.refilled == l.bucket.refilled
  {
  }

  lemma NothingFreed(events: seq<Event>, rate: nat)
    requires RatesUpTo(events, rate) && Honest(events)
    ensures Run(START, events).ledger.freed == 0
  {
    RatesAllow(events, rate);
    assert events[..|events|] == events;
    var g := Run(START, events[..|events|]).ledger;
    assert g.freed <= g.unlimited;
    hide Run;
  }

  lemma MultiplyAtMost(q: nat, a: nat, b: nat)
    requires a <= b
    ensures q * a <= q * b
  {
  }

  /** A taker that was refused and slept for the rest of the tick is granted something, if only it ran. */
  lemma SleepIsLongEnough(l: Limiter, rate: nat, want: nat, now: nat, later: nat)
    requires rate > 0 && want > 0 && Take(l, rate, want, now).0 == None
    requires later >= now + (100_000_000 - Since(l.bucket, now))
    requires l.bucket.refilled.Some? ==> l.bucket.refilled.value <= now
    ensures var grant := Take(Take(l, rate, want, now).1, rate, want, later).0;
            && grant.Some? && grant.value == (if want < Quota(rate) then want else Quota(rate))
            && (rate >= 10 ==> Quota(rate) == rate / 10) && (rate < 10 ==> Quota(rate) == 1)
  {
    assert !RefillDue(l.bucket, now);
  }

  /** A run one event longer. */
  lemma RunSnoc(events: seq<Event>, e: Event)
    ensures Run(START, events + [e]) == Step(Run(START, events), e)
  {
    assert (events + [e])[..|events|] == events;
  }

  /** A limit of one byte a tick, a thousand taken while it is lifted, handed back once it is set again, and taken again. */
  const LIFTED: seq<Event> := [Setting(10), Taking(10, 1, 0), Setting(0), Taking(0, 1000, 0), Setting(10)]

  /** No taker hands back what it did not have, and yet the limit is broken. */
  lemma UnlimitedGrantsReturnedUnderALimit()
    ensures Honest(LIFTED + FreeRide(10, 1000, 1000, 1))
    ensures !LimitKept(Run(START, LIFTED + FreeRide(10, 1000, 1000, 1)))
  {
    var e1: seq<Event> := [Setting(10)];
    var e2 := e1 + [Taking(10, 1, 0)];
    var e3 := e2 + [Setting(0)];
    var e4 := e3 + [Taking(0, 1000, 0)];
    RunSnoc([], Setting(10));
    assert [] + [Setting(10)] == e1;
    RunSnoc(e1, Taking(10, 1, 0));
    RunSnoc(e2, Setting(0));
    RunSnoc(e3, Taking(0, 1000, 0));
    RunSnoc(e4, Setting(10));
    assert LIFTED == e4 + [Setting(10)];
    var w1, w2, w3, w4 := Run(START, e1), Run(START, e2), Run(START, e3), Run(START, e4);
    assert w1 == START.(limiter := Limiter(10, Bucket(0, None)));
    assert w2 == World(Limiter(10, Bucket(0, Some(0))), Ledger(1, 0, 0, 0, 1, 1, 0));
    assert w3 == w2.(limiter := Limiter(0, Bucket(0, Some(0))));
    assert w4 == w3.(ledger := Ledger(1, 1000, 0, 0, 1, 1, 0));
    var w5 := Run(START, LIFTED);
    assert w5 == w4.(limiter := Limiter(10, Bucket(0, Some(0))));
    FreeBytesBreakTheLimit(LIFTED, 10, 1000, 1000, 1);
    var e6 := LIFTED + [Returning(10, 1000, false)];
    RunSnoc(LIFTED, Returning(10, 1000, false));
    RunSnoc(e6, Taking(10, 1000, 1));
    var e7 := LIFTED + FreeRide(10, 1000, 1000, 1);
    assert e7 == e6 + [Taking(10, 1000, 1)];
    assert e7[..0] == [] && e7[..1] == e1 && e7[..2] == e2 && e7[..3] == e3 && e7[..4] == e4;
    assert e7[..5] == LIFTED && e7[..6] == e6 && e7[..7] == e7;
    hide Run;
  }
}
