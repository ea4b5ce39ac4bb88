/**
 What one step of an actor makes of it and of what the client is told, and which actors
 the registry tells to go, in every reachable state.
 */
module ActorSteps {
  import opened Wrappers
  import opened RegistrySpec

  /** The step ends the actor's connection. */
  predicate Ends(a: Actor, e: Event) {
    match e
    case Start(_, reached) => a.phase == Fresh && a.outbound && !reached
    case Fail(_) => a.phase == Connecting || a.phase == Connected
    case Close(_) => a.phase == Connected
    case HandleRetire(_) => a.phase == Connecting && a.retireSent && !a.retired
    case HandleStop(_) => a.phase != Fresh && a.stopSent
    case _ => false
  }

  /** A failure of the connection, not a close, a retirement or a stop. */
  predicate Failing(e: Event) {
    e.Start? || e.Fail?
  }

  /** The connection comes to stand: it was accepted, or a dial got through. */
  predicate GetsThrough(a: Actor, e: Event) {
    (e.Start? && a.phase == Fresh && !a.outbound) || (e.Establish? && a.phase == Connecting)
  }

  predicate NotesRetirement(a: Actor, e: Event) {
    e.HandleRetire? && a.phase != Fresh && a.retireSent
  }

  predicate Steps(s: State, e: Event) {
    OfActor(e) && e.id in s.actors && s.actors[e.id].running
  }

  /** The actor afterwards, field by field. */
  predicate ActorIs(a: Actor, b: Actor, e: Event) {
    && b.name == a.name && b.outbound == a.outbound && b.retireSent == a.retireSent
    && b.username == (if e.SetUsername? && !a.reported then e.username else a.username)
    && (b.established <==> a.established || GetsThrough(a, e))
    && (b.retired <==> a.retired || NotesRetirement(a, e))
    && (b.stopSent <==> a.stopSent || (e.Tick? && a.phase == Disconnected && a.retired))
    && (b.reported <==> a.reported || Ends(a, e))
    && (b.running <==> !(e.HandleStop? && a.phase != Fresh && a.stopSent))
    && b.phase == if Ends(a, e) then Disconnected
                  else if GetsThrough(a, e) then Connected
                  else if e.Start? && a.phase == Fresh then Connecting else a.phase
  }

  /**
   The client hears of an end the first time, under the name the actor goes by: clean
   unless the connection failed and had not been retired; then unreachable if it was a
   dial that never got through, and lost if it was not.
   */
  function Heard(a: Actor, e: Event): seq<Notice>
    requires OfActor(e)
  {
    if !Ends(a, e) || a.reported then []
    else [Notice(e.id, a.username,
                 if !Failing(e) || a.retired then Clean else if a.outbound && !a.established then Unreachable else Lost)]
  }

  /** Nothing but the acting actor and what was sent differs. */
  predicate OthersStand(s: State, t: State, id: nat) {
    && t.peers == s.peers && t.nextId == s.nextId && t.drawn == s.drawn && t.handled == s.handled
    && t.actors.Keys == s.actors.Keys
    && forall other :: other in s.actors && other != id ==> t.actors[other] == s.actors[other]
  }

  predicate Did(s: State, t: State, e: Event)
    requires Steps(s, e)
  {
    && OthersStand(s, t, e.id) && ActorIs(s.actors[e.id], t.actors[e.id], e)
    && t.sent == s.sent + Heard(s.actors[e.id], e)
  }

  /** What one step of an actor does, in any state. */
  lemma WhatAnActorDoes(s: State, e: Event)
    requires OfActor(e)
    ensures if Steps(s, e) then Did(s, Step(s, e), e) else Step(s, e) == s
  {
    hide Did;
    if Steps(s, e) {
      match e
      case Start(_, _) => StartDoes(s, e);
      case HandleRetire(_) => RetireDoes(s, e);
      case HandleStop(_) => StopDoes(s, e);
      case Fail(_) => EndDoes(s, e);
      case Close(_) => EndDoes(s, e);
      case _ => QuietDoes(s, e);
    }
  }

  lemma OneMoves(s: State, e: Event, b: Actor)
    requires Steps(s, e) && ActorIs(s.actors[e.id], b, e) && Heard(s.actors[e.id], e) == []
    ensures Did(s, s.(actors := s.actors[e.id := b]), e)
  {
    hide ActorIs, Heard;
  }

  lemma OneEnds(s: State, e: Event, outcome: Outcome, b: Actor)
    requires Steps(s, e) && ActorIs(s.actors[e.id], b, e)
    requires Heard(s.actors[e.id], e) ==
             if s.actors[e.id].reported then [] else [Notice(e.id, s.actors[e.id].username, outcome)]
    ensures var told := s.sent + (if s.actors[e.id].reported then [] else [Notice(e.id, s.actors[e.id].username, outcome)]);
            Did(s, s.(actors := s.actors[e.id := b], sent := told), e)
  {
    hide ActorIs, Heard;
  }

  /** `disconnect` as one record: the actor's flags, and the notice if it is the first. */
  lemma DisconnectIs(s: State, id: nat, outcome: Outcome)
    requires id in s.actors
    ensures var a := s.actors[id];
            Disconnect(s, id, outcome) ==
            s.(actors := s.actors[id := a.(phase := Disconnected, reported := true)],
               sent := s.sent + (if a.reported then [] else [Notice(id, a.username, outcome)]))
  {
    assert s.sent + [] == s.sent;
  }

  lemma Twice(actors: map<nat, Actor>, id: nat, a: Actor, b: Actor)
    ensures actors[id := a][id := b] == actors[id := b]
  {
  }

  lemma StartDoes(s: State, e: Event)
    requires e.Start? && Steps(s, e)
    ensures Did(s, Step(s, e), e)
  {
    hide Did, Disconnect;
    var a := s.actors[e.id];
    if a.phase != Fresh {
      assert s.actors[e.id := a] == s.actors;
      OneMoves(s, e, a);
    } else if !a.outbound {
      OneMoves(s, e, a.(phase := Connected, established := true));
    } else if e.reached {
      OneMoves(s, e, a.(phase := Connecting));
    } else {
      FailDoes(s, e);
    }
  }

  lemma FailDoes(s: State, e: Event)
    requires Failing(e) && Steps(s, e) && Ends(s.actors[e.id], e)
    ensures Did(s, DisconnectWithError(s, e.id), e)
  {
    var a := s.actors[e.id];
    var outcome := if a.retired then Clean else if a.outbound && !a.established then Unreachable else Lost;
    DisconnectIs(s, e.id, outcome);
    hide Did, Disconnect;
    OneEnds(s, e, outcome, a.(phase := Disconnected, reported := true));
  }

  lemma EndDoes(s: State, e: Event)
    requires (e.Fail? || e.Close?) && Steps(s, e)
    ensures Did(s, Step(s, e), e)
  {
    hide Did, Disconnect;
    var a := s.actors[e.id];
    if !Ends(a, e) {
      assert s.actors[e.id := a] == s.actors;
      OneMoves(s, e, a);
    } else if e.Fail? {
      FailDoes(s, e);
    } else {
      DisconnectIs(s, e.id, Clean);
      OneEnds(s, e, Clean, a.(phase := Disconnected, reported := true));
    }
  }

  lemma RetireDoes(s: State, e: Event)
    requires e.HandleRetire? && Steps(s, e)
    ensures Did(s, Step(s, e), e)
  {
    hide Did, Disconnect;
    var a := s.actors[e.id];
    if a.phase == Fresh || !a.retireSent || a.retired {
      assert s.actors[e.id := a] == s.actors;
      OneMoves(s, e, a);
    } else if a.phase != Connecting {
      OneMoves(s, e, a.(retired := true));
    } else {
      DisconnectIs(s.(actors := s.actors[e.id := a.(retired := true)]), e.id, Clean);
      Twice(s.actors, e.id, a.(retired := true), a.(retired := true, phase := Disconnected, reported := true));
      OneEnds(s, e, Clean, a.(retired := true, phase := Disconnected, reported := true));
    }
  }

  lemma StopDoes(s: State, e: Event)
    requires e.HandleStop? && Steps(s, e)
    ensures Did(s, Step(s, e), e)
  {
    hide Did, Disconnect;
    var a := s.actors[e.id];
    if !Ends(a, e) {
      assert s.actors[e.id := a] == s.actors;
      OneMoves(s, e, a);
    } else {
      DisconnectIs(s, e.id, Clean);
      Twice(s.actors, e.id, a.(phase := Disconnected, reported := true),
            a.(phase := Disconnected, reported := true, running := false));
      OneEnds(s, e, Clean, a.(phase := Disconnected, reported := true, running := false));
    }
  }

  lemma QuietDoes(s: State, e: Event)
    requires (e.Establish? || e.Tick? || e.SetUsername?) && Steps(s, e)
    ensures Did(s, Step(s, e), e)
  {
    hide Did;
    var a := s.actors[e.id];
    assert s.actors[e.id := a] == s.actors;
    if e.Establish? && a.phase == Connecting {
      OneMoves(s, e, a.(phase := Connected, established := true));
    } else if e.Tick? && a.phase == Disconnected && a.retired {
      OneMoves(s, e, a.(stopSent := true));
    } else if e.SetUsername? && !a.reported {
      OneMoves(s, e, a.(username := e.username));
    } else {
      OneMoves(s, e, a);
    }
  }

  // ---- Whom the registry tells ----

  /** The place that the actor holds goes to its successor under the same name. */
  predicate Succeeded(s: State, e: Event, id: nat) {
    e.Register? && e.id in s.drawn && e.spawns && e.name in s.peers && s.peers[e.name] == id
  }

  /** The actor loses the place it holds, with nobody to take it over. */
  ghost predicate Dropped(s: State, e: Event, id: nat) {
    exists name :: name in s.peers && s.peers[name] == id && Loses(s, e, name) && !(e.Register? && e.name == name)
  }

  /** A registration takes its place. */
  ghost predicate Enters(s: State, e: Event) {
    && e.Register? && e.id in s.drawn && e.spawns
    && (|| e.name in s.peers || |s.peers| == 0 || |s.peers| < e.limit
        || exists other :: other in s.peers && other !in e.protected)
  }

  /** A new actor: it has done nothing and been told nothing. */
  predicate IsNew(a: Actor, name: string, outbound: bool) {
    && a.name == name && a.username == name && a.outbound == outbound && a.phase == Fresh && a.running
    && !a.established && !a.retireSent && !a.retired && !a.stopSent && !a.reported
  }

  ghost predicate Tells(s: State, t: State, e: Event) {
    && t.sent == s.sent
    && t.actors.Keys == s.actors.Keys + (if Enters(s, e) then {e.id} else {})
    && (Enters(s, e) ==> IsNew(t.actors[e.id], e.name, e.outbound))
    && forall id :: id in s.actors ==> t.actors[id] == Mailed(s, e, id)
  }

  ghost function Mailed(s: State, e: Event, id: nat): Actor
    requires id in s.actors
  {
    var a := s.actors[id];
    a.(stopSent := a.stopSent || Dropped(s, e, id), retireSent := a.retireSent || Succeeded(s, e, id))
  }

  /**
   In every reachable state an actor is told to retire when another is registered under
   its name, and to stop when it loses its place in any other way; nobody else is told
   anything, and nothing else of anybody differs.
   */
  lemma WhoIsTold(events: seq<Event>, e: Event)
    requires !OfActor(e)
    ensures Tells(Run(events), Step(Run(events), e), e)
  {
    EveryRunKeeps(events);
    RegistryTells(MostAllowed(events), Run(events), e);
    hide Inv, Step, Tells;
  }

  lemma RegistryTells(capacity: nat, s: State, e: Event)
    requires !OfActor(e) && Inv(capacity, s)
    ensures Tells(s, Step(s, e), e)
  {
    hide Tells, Inv, Admit;
    match e
    case Draw => NobodyTold(s, e, Step(s, e));
    case Register(id, _, _, _, _, _) =>
      if id in s.drawn {
        RegisterTells(capacity, s, e);
      } else {
        NobodyTold(s, e, s);
      }
    case Remove(name) =>
      if name in s.peers {
        OneStops(capacity, s, e, name);
      } else {
        NobodyTold(s, e, s);
      }
    case StopAll => AllStop(s);
    case HandleNotice => NoticeTells(capacity, s);
  }

  lemma NobodyTold(s: State, e: Event, t: State)
    requires !Enters(s, e) && t.actors == s.actors && t.sent == s.sent
    requires forall id :: id in s.actors ==> !Dropped(s, e, id) && !Succeeded(s, e, id)
    ensures Tells(s, t, e)
  {
    hide Enters, Dropped, Succeeded;
  }

  lemma OneStops(capacity: nat, s: State, e: Event, name: string)
    requires Inv(capacity, s) && name in s.peers && (e.Remove? || e.HandleNotice?)
    requires forall other :: other in s.peers ==> (Loses(s, e, other) <==> other == name)
    ensures forall t: State :: t.sent == s.sent && t.actors == Stopped(s.actors, Some(s.peers[name])) ==> Tells(s, t, e)
  {
    IdsAreOnesOwn(s);
    hide Inv, Entries, EndsAreKnown, Actors, NoneForgotten, Named, Loses;
    forall id | id in s.actors
      ensures Dropped(s, e, id) <==> id == s.peers[name]
    {
      if id == s.peers[name] {
        assert Loses(s, e, name);
      }
    }
    hide Dropped, Tells, Stopped;
    forall t: State | t.sent == s.sent && t.actors == Stopped(s.actors, Some(s.peers[name]))
      ensures Tells(s, t, e)
    {
      DroppedStops(s, e, t, s.peers[name]);
    }
  }

  lemma DroppedStops(s: State, e: Event, t: State, one: nat)
    requires !e.Register? && t.sent == s.sent && t.actors == Stopped(s.actors, Some(one))
    requires forall id :: id in s.actors ==> (Dropped(s, e, id) <==> id == one)
    ensures Tells(s, t, e)
  {
    OnlyByRegistering(s, e);
    StoppedIs(s.actors, Some(one));
    hide Dropped, Stopped, Enters, Succeeded;
    forall id | id in s.actors
      ensures t.actors[id] == Mailed(s, e, id)
    {
      assert Dropped(s, e, id) <==> id == one;
    }
    hide Mailed;
  }

  lemma OnlyByRegistering(s: State, e: Event)
    ensures !e.Register? ==> !Enters(s, e) && forall id :: !Succeeded(s, e, id)
  {
  }

  lemma AllStop(s: State)
    ensures Tells(s, Step(s, StopAll), StopAll)
  {
    forall id | id in s.actors
      ensures Dropped(s, StopAll, id) <==> id in s.peers.Values
    {
      if id in s.peers.Values {
        var name :| name in s.peers && s.peers[name] == id;
        assert Loses(s, StopAll, name);
      }
    }
    hide Dropped;
  }

  lemma NoticeTells(capacity: nat, s: State)
    requires Inv(capacity, s)
    ensures Tells(s, Step(s, HandleNotice), HandleNotice)
  {
    hide Tells, Inv, Stopped;
    if s.handled < |s.sent| {
      var n := s.sent[s.handled];
      if n.name in s.peers && s.peers[n.name] == n.id {
        OneStops(capacity, s, HandleNotice, n.name);
      } else {
        NobodyTold(s, HandleNotice, Step(s, HandleNotice));
      }
    } else {
      NobodyTold(s, HandleNotice, s);
    }
  }

  lemma RegisterTells(capacity: nat, s: State, e: Event)
    requires Inv(capacity, s) && e.Register? && e.id in s.drawn
    ensures Tells(s, Step(s, e), e)
  {
    var r := Admit(s.peers, e.limit, e.name, e.id, e.protected, e.spawns);
    AdmissionIs(capacity, s, e);
    NewIsFresh(s, e.id);
    BothMailed(s, e, r.evicted, r.replaced);
    hide Inv, Admit, Dropped, Succeeded, Enters, Stopped, Retired, Entries, EndsAreKnown, Actors, NoneForgotten, Named;
    hide Tells, Mailed;
    TellsWithin(s, e, Step(s, e), Retired(Stopped(s.actors, r.evicted), r.replaced));
  }

  lemma BothMailed(s: State, e: Event, stopped: Option<nat>, retired: Option<nat>)
    requires forall id :: id in s.actors ==> (Dropped(s, e, id) <==> stopped == Some(id))
    requires forall id :: id in s.actors ==> (Succeeded(s, e, id) <==> retired == Some(id))
    ensures var told := Retired(Stopped(s.actors, stopped), retired);
            told.Keys == s.actors.Keys && forall id :: id in s.actors ==> told[id] == Mailed(s, e, id)
  {
    hide Dropped, Succeeded;
    var some := Stopped(s.actors, stopped);
    StoppedIs(s.actors, stopped);
    RetiredIs(some, retired);
    hide Stopped, Retired;
  }

  lemma StoppedIs(actors: map<nat, Actor>, stopped: Option<nat>)
    ensures var told := Stopped(actors, stopped);
            && told.Keys == actors.Keys
            && forall id :: id in actors ==>
                 told[id] == actors[id].(stopSent := actors[id].stopSent || stopped == Some(id))
  {
  }

  lemma RetiredIs(actors: map<nat, Actor>, retired: Option<nat>)
    ensures var told := Retired(actors, retired);
            && told.Keys == actors.Keys
            && forall id :: id in actors ==>
                 told[id] == actors[id].(retireSent := actors[id].retireSent || retired == Some(id))
  {
  }

  lemma TellsWithin(s: State, e: Event, t: State, told: map<nat, Actor>)
    requires e.Register? && e.id !in s.actors && told.Keys == s.actors.Keys && t.sent == s.sent
    requires forall id :: id in s.actors ==> told[id] == Mailed(s, e, id)
    requires t.actors == if Enters(s, e) then told[e.id := NewActor(e.name, e.outbound)] else told
    ensures Tells(s, t, e)
  {
    hide Mailed, Enters;
  }

  /** Whom an admission lets go, and how. */
  lemma AdmissionIs(capacity: nat, s: State, e: Event)
    requires Inv(capacity, s) && e.Register? && e.id in s.drawn
    ensures var r := Admit(s.peers, e.limit, e.name, e.id, e.protected, e.spawns);
            && (r.admitted <==> Enters(s, e))
            && (forall id :: id in s.actors ==> (Dropped(s, e, id) <==> r.evicted == Some(id)))
            && (forall id :: id in s.actors ==> (Succeeded(s, e, id) <==> r.replaced == Some(id)))
  {
    IdsAreOnesOwn(s);
    var r := Admit(s.peers, e.limit, e.name, e.id, e.protected, e.spawns);
    AllVictims(s.peers, e.protected);
    hide Inv, Entries, EndsAreKnown, Actors, NoneForgotten, Named, Victim, IsVictim;
    forall id | id in s.actors
      ensures Dropped(s, e, id) <==> r.evicted == Some(id)
    {
      EvictedIs(s, e, id);
    }
    EntersIs(s, e);
  }

  lemma EvictedIs(s: State, e: Event, id: nat)
    requires OneOwner(s.peers) && e.Register? && e.id in s.drawn
    ensures Dropped(s, e, id) <==> Admit(s.peers, e.limit, e.name, e.id, e.protected, e.spawns).evicted == Some(id)
  {
    AllVictims(s.peers, e.protected);
    forall name | IsVictim(s.peers, e.protected, name)
      ensures Victim(s.peers, e.protected) == Some(name)
    {
      VictimIsUnique(s.peers, e.protected, name);
    }
    var v := Victim(s.peers, e.protected);
    assert v.Some? ==> IsVictim(s.peers, e.protected, v.value);
    hide OneOwner, IsVictim, Victim;
    if v.Some? && e.name !in s.peers && |s.peers| >= Slots(e.limit) {
      assert Loses(s, e, v.value);
    }
  }

  lemma EntersIs(s: State, e: Event)
    requires e.Register? && e.id in s.drawn
    ensures Admit(s.peers, e.limit, e.name, e.id, e.protected, e.spawns).admitted <==> Enters(s, e)
  {
    var v := Victim(s.peers, e.protected);
    if v.Some? {
      assert v.value in s.peers && v.value !in e.protected;
    }
  }

  // ---- What the flags stand for ----

  /** At its `k`-th event the run has this actor get through. */
  ghost predicate ThroughAt(events: seq<Event>, k: nat, id: nat) {
    && k < |events|
    && var s := Run(events[..k]);
       Steps(s, events[k]) && events[k].id == id && GetsThrough(s.actors[id], events[k])
  }

  ghost predicate GotThrough(events: seq<Event>, id: nat) {
    exists k :: ThroughAt(events, k, id)
  }

  lemma GotThroughMore(events: seq<Event>, e: Event, id: nat)
    ensures var s := Run(events);
            GotThrough(events + [e], id) <==>
              GotThrough(events, id) || (Steps(s, e) && e.id == id && GetsThrough(s.actors[id], e))
  {
    hide Run, Steps, GetsThrough;
    var all := events + [e];
    assert all[..|events|] == events;
    forall k: nat | k < |events|
      ensures ThroughAt(all, k, id) <==> ThroughAt(events, k, id)
    {
      assert all[..k] == events[..k];
    }
    if ThroughAt(all, |events|, id) {
      assert Steps(Run(events), e);
    }
  }

  /** An actor is taken for established exactly when its connection has come to stand, ever. */
  lemma {:induction false} EstablishedExactlyWhen(events: seq<Event>, id: nat)
    ensures var s := Run(events);
            (id in s.actors && s.actors[id].established) <==> GotThrough(events, id)
  {
    hide Inv, Step, GotThrough;
    if events == [] {
      NothingYet(id);
    } else {
      var front, e := events[..|events| - 1], events[|events| - 1];
      assert front + [e] == events;
      EstablishedExactlyWhen(front, id);
      GotThroughMore(front, e, id);
      EveryRunKeeps(front);
      OnlyGettingThrough(MostAllowed(front), Run(front), e, id);
    }
  }

  lemma NothingYet(id: nat)
    ensures !GotThrough([], id) && Run([]) == EMPTY
  {
  }

  lemma OnlyGettingThrough(capacity: nat, s: State, e: Event, id: nat)
    requires Inv(capacity, s)
    ensures var t := Step(s, e);
            (id in t.actors && t.actors[id].established) <==>
              (id in s.actors && s.actors[id].established) || (Steps(s, e) && e.id == id && GetsThrough(s.actors[id], e))
  {
    if OfActor(e) {
      WhatAnActorDoes(s, e);
    } else {
      RegistryTells(capacity, s, e);
      IdIsNobodys(capacity, s, e);
    }
    hide Inv, Step, Dropped, Succeeded, Enters, Heard;
  }

  lemma IdIsNobodys(capacity: nat, s: State, e: Event)
    requires Inv(capacity, s)
    ensures Enters(s, e) ==> e.id !in s.actors
  {
    if Enters(s, e) {
      NewIsFresh(s, e.id);
    }
  }

  /**
   In every run, a dial that fails is heard of as unreachable exactly when it never got
   through; an accepted connection that fails, and a dial that had got through, as lost;
   a retired one as clean.
   */
  lemma FailureIsHeardAs(events: seq<Event>, e: Event)
    requires Failing(e) && Steps(Run(events), e) && Ends(Run(events).actors[e.id], e)
    requires !Run(events).actors[e.id].reported
    ensures var s := Run(events);
            var a := s.actors[e.id];
            && |Step(s, e).sent| == |s.sent| + 1
            && var n := Step(s, e).sent[|s.sent|];
               && n.id == e.id && n.name == a.username
               && (n.outcome == Clean <==> a.retired)
               && (n.outcome == Unreachable <==> !a.retired && a.outbound && !GotThrough(events, e.id))
  {
    WhatAnActorDoes(Run(events), e);
    EstablishedExactlyWhen(events, e.id);
    hide Run, Step, GotThrough, ActorIs, OthersStand;
  }
}
