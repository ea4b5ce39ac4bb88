/**
 How long an offer stands: over every run of the scheduler, an offer is dropped for
 want of an answer exactly when it has had none for the whole timeout, and never
 once it has been answered.
 */
module UploadOffers {
  import opened Basics
  import opened Wrappers
  import opened ServeOrder
  import opened UploadSpec

  /** When each token's offer was sent, and which offers were answered while they stood. */
  datatype Log = Log(at: map<nat, nat>, answered: set<nat>)

  /** What one event adds to the log, from `s` to `w`. */
  function Noted(log: Log, s: State, w: State, e: Event): Log {
    match e
    case Pumping(now) => log.(at := log.at + (map t | t in w.offers.Keys - s.offers.Keys :: now))
    case Answering(token) => if token in s.offers then log.(answered := log.answered + {token}) else log
    case _ => log
  }

  function LogOf(slots: nat, events: seq<Event>): Log {
    if events == [] then Log(map[], {})
    else
      var front, e := events[..|events| - 1], events[|events| - 1];
      Noted(LogOf(slots, front), Run(slots, front), Run(slots, events), e)
  }

  /** An offer that has waited for thirty seconds without an answer. */
  predicate Unanswered(log: Log, token: nat, now: nat) {
    token in log.at && token !in log.answered && Elapsed(now, log.at[token]) >= 30_000_000_000
  }

  /** Each offer's clock runs from when it was sent until it is answered. */
  ghost predicate ClocksRun(s: State, log: Log) {
    && (forall t :: t in s.offers ==>
          t in log.at && s.offers[t].offered == if t in log.answered then None else Some(log.at[t]))
    && (forall t :: t in log.answered || t in log.at ==> t < s.nextToken)
  }

  lemma {:induction false} PumpManyOffers(s: State, now: nat, k: nat)
    requires k <= |s.queue|
    ensures var w := PumpMany(s, now, k);
            && w.nextToken == s.nextToken + k
            && (forall t :: t in w.offers && t < s.nextToken ==> t in s.offers && w.offers[t] == s.offers[t])
            && (forall t :: t in w.offers && t !in s.offers ==>
                  s.nextToken <= t < w.nextToken && w.offers[t].offered == Some(now))
    decreases k
  {
    hide PumpOne, Next, Without;
    if k > 0 {
      PumpOneOffers(s, now);
      PumpManyOffers(PumpOne(s, now), now, k - 1);
    }
  }

  lemma PumpOneOffers(s: State, now: nat)
    requires s.queue != []
    ensures var w := PumpOne(s, now);
            && |w.queue| == |s.queue| - 1 && w.nextToken == s.nextToken + 1 && s.nextToken in w.offers
            && w.offers[s.nextToken].offered == Some(now)
            && (forall t :: t != s.nextToken ==> (t in w.offers <==> t in s.offers))
            && (forall t :: t in s.offers && t != s.nextToken ==> w.offers[t] == s.offers[t])
  {
    WithoutIs(s.queue, Next(s.queue));
    hide Next, Without;
  }

  lemma PumpRuns(s: State, log: Log, now: nat)
    requires TokensOk(s) && ClocksRun(s, log)
    ensures ClocksRun(Pump(s, now), Noted(log, s, Pump(s, now), Pumping(now)))
  {
    hide PumpMany, Servable;
    PumpManyOffers(s, now, Servable(s));
    var w := Pump(s, now);
    var more := Noted(log, s, w, Pumping(now));
    forall t | t in w.offers
      ensures t in more.at && w.offers[t].offered == if t in more.answered then None else Some(more.at[t])
    {
      if t in s.offers {
        assert t in log.at && t < s.nextToken;
      } else {
        assert t !in log.answered;
      }
    }
  }

  lemma StepRuns(s: State, log: Log, e: Event)
    requires TokensOk(s) && ClocksRun(s, log)
    ensures ClocksRun(Step(s, e), Noted(log, s, Step(s, e), e))
  {
    hide Pump, Marked, Kept, QueuedBy, OfferedTo, Stale, Reranked;
    match e
    case Pumping(now) => PumpRuns(s, log, now);
    case _ =>
  }

  lemma {:induction false} EveryClockRuns(slots: nat, events: seq<Event>)
    requires AllValid(events)
    ensures ClocksRun(Run(slots, events), LogOf(slots, events))
  {
    hide Step, ClocksRun, Inv, TokensOk;
    if events == [] {
      NoClocks(slots);
    } else {
      var front := events[..|events| - 1];
      EveryClockRuns(slots, front);
      TokensHold(slots, front);
      StepRuns(Run(slots, front), LogOf(slots, front), events[|events| - 1]);
    }
  }

  lemma NoClocks(slots: nat)
    ensures ClocksRun(UploadSpec.Fresh(slots), Log(map[], {}))
  {
  }

  lemma TokensHold(slots: nat, events: seq<Event>)
    requires AllValid(events)
    ensures TokensOk(Run(slots, events)) && Accounted(Run(slots, events))
  {
    EveryRunKeeps(slots, events);
    hide Run, TokensOk, Accounted, QueueOk, InFlight;
  }

  /**
   In every reachable state, looking for stale offers ends a request that is on
   offer exactly when its offer has stood for the timeout without an answer, and
   changes no other request. An answered offer is never among them.
   */
  lemma ExpiresExactlyWhen(slots: nat, events: seq<Event>, now: nat, a: nat)
    requires AllValid(events) && a in Run(slots, events).fates
    ensures var s := Run(slots, events);
            && a in Expire(s, now).fates
            && Expire(s, now).fates[a] ==
                 (if s.fates[a].Offered? && Unanswered(LogOf(slots, events), s.fates[a].token, now)
                  then Expired else s.fates[a])
  {
    EveryClockRuns(slots, events);
    TokensHold(slots, events);
    hide Run, LogOf, Lines;
  }

  /** The request was on offer, unanswered for the timeout, when stale offers were looked for at event `n`. */
  predicate LapsedAt(slots: nat, events: seq<Event>, n: nat, a: nat)
    requires n < |events|
  {
    var s := Run(slots, events[..n]);
    && events[n].Expiring? && a in s.fates && s.fates[a].Offered?
    && Unanswered(LogOf(slots, events[..n]), s.fates[a].token, events[n].now)
  }

  /** In every run a request is `Expired` only if its offer lapsed. */
  lemma {:induction false} ExpiredOnlyIfLapsed(slots: nat, events: seq<Event>, a: nat)
    requires AllValid(events) && a in Run(slots, events).fates && Run(slots, events).fates[a] == Expired
    ensures exists n :: 0 <= n < |events| && LapsedAt(slots, events, n, a)
  {
    hide Step, Unanswered, LogOf;
    if events == [] {
      assert false;
    }
    var n := |events| - 1;
    var front, e := events[..n], events[n];
    var s := Run(slots, front);
    if a in s.fates && s.fates[a] == Expired {
      ExpiredOnlyIfLapsed(slots, front, a);
      var m :| 0 <= m < |front| && LapsedAt(slots, front, m, a);
      assert front[..m] == events[..m];
      assert LapsedAt(slots, events, m, a);
    } else {
      TokensHold(slots, front);
      OnlyExpiring(s, e, a);
      ExpiresExactlyWhen(slots, front, e.now, a);
      assert LapsedAt(slots, events, n, a);
    }
  }

  /** Nothing but the look for stale offers makes a request expire. */
  lemma OnlyExpiring(s: State, e: Event, a: nat)
    requires Accounted(s) && a in Step(s, e).fates && Step(s, e).fates[a] == Expired
    requires a !in s.fates || s.fates[a] != Expired
    ensures e.Expiring? && a in s.fates && Step(s, e) == Expire(s, e.now)
  {
    hide PumpMany, Servable, Kept, QueuedBy, OfferedTo, Stale, Reranked, Accounted;
    match e
    case Pumping(now) => PumpsNoneOut(s, now, Servable(s), a);
    case _ =>
  }

  lemma {:induction false} PumpsNoneOut(s: State, now: nat, k: nat, a: nat)
    requires k <= |s.queue|
    ensures var w := PumpMany(s, now, k);
            a in w.fates && w.fates[a] == Expired ==> a in s.fates && s.fates[a] == Expired
    decreases k
  {
    hide Next, Without;
    if k > 0 {
      WithoutIs(s.queue, Next(s.queue));
      PumpsNoneOut(PumpOne(s, now), now, k - 1, a);
    }
  }

  // ---- An answered offer ----

  /** What may become of a request whose offer was answered: served, or released with its peer. */
  predicate Answered(f: Fate, token: nat) {
    f == Offered(token) || f == Serving(token) || f == Released
  }

  lemma {:induction false} PumpPassesBy(s: State, now: nat, k: nat, a: nat)
    requires k <= |s.queue| && !InQueue(s.queue, a) && a in s.fates
    ensures a in PumpMany(s, now, k).fates && PumpMany(s, now, k).fates[a] == s.fates[a]
    decreases k
  {
    hide Next, Without;
    if k > 0 {
      WithoutIs(s.queue, Next(s.queue));
      PumpPassesBy(PumpOne(s, now), now, k - 1, a);
    }
  }

  lemma AnsweredStep(s: State, e: Event, a: nat, t: nat)
    requires Accounted(s) && a in s.fates && Answered(s.fates[a], t)
    ensures a in Step(s, e).fates
    ensures Answered(Step(s, e).fates[a], t) || (e.Expiring? && s.fates[a] == Offered(t))
  {
    hide PumpMany, Servable, Kept, OfferedTo, Stale, Reranked, Places;
    assert !InQueue(s.queue, a);
    match e
    case Pumping(now) => PumpPassesBy(s, now, Servable(s), a);
    case Releasing(d) => assert a !in QueuedBy(s.queue, d);
    case _ =>
  }

  /** Once its offer was answered, a request never expires, whatever happens after. */
  lemma {:induction false} AnsweredNeverExpires(slots: nat, events: seq<Event>, more: seq<Event>, a: nat, t: nat)
    requires AllValid(events + more) && a in Run(slots, events).fates
    requires Run(slots, events).fates[a] == Offered(t) && t in LogOf(slots, events).answered
    ensures a in Run(slots, events + more).fates && Answered(Run(slots, events + more).fates[a], t)
    ensures t in LogOf(slots, events + more).answered
  {
    hide Run, LogOf, Answered;
    if more == [] {
      assert events + more == events;
      StillAnswered(Run(slots, events).fates[a], t);
    } else {
      var n := |more| - 1;
      var front := events + more[..n];
      assert (events + more)[..|front|] == front;
      assert forall i :: 0 <= i < |front| ==> front[i] == (events + more)[i];
      AnsweredNeverExpires(slots, events, more[..n], a, t);
      AnsweredOnce(slots, front, more[n], a, t);
      assert front + [more[n]] == events + more;
    }
  }

  lemma AnsweredOnce(slots: nat, events: seq<Event>, e: Event, a: nat, t: nat)
    requires AllValid(events) && a in Run(slots, events).fates
    requires Answered(Run(slots, events).fates[a], t) && t in LogOf(slots, events).answered
    ensures var all := events + [e];
            && a in Run(slots, all).fates && Answered(Run(slots, all).fates[a], t) && t in LogOf(slots, all).answered
  {
    assert (events + [e])[..|events|] == events;
    TokensHold(slots, events);
    AnsweredStep(Run(slots, events), e, a, t);
    if e.Expiring? {
      ExpiresExactlyWhen(slots, events, e.now, a);
      ExpiringIs(Run(slots, events), e);
    }
    hide Step, Answered, Expire;
  }

  lemma ExpiringIs(s: State, e: Event)
    requires e.Expiring?
    ensures Step(s, e) == Expire(s, e.now)
  {
  }

  lemma StillAnswered(f: Fate, t: nat)
    requires f == Offered(t)
    ensures Answered(f, t)
  {
  }
}
