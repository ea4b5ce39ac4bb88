/**
 The peer registry and its actors as one state machine: registrations,
 replacements and evictions under the map's lock, the actors' own steps, and the
 client loop acting on their terminal notices one at a time and late.
 */
module RegistrySpec {
  import opened Basics
  import opened Wrappers

  /** Who holds each username's place: the id of its actor. */
  type Peers = map<string, nat>

  datatype Phase = Fresh | Connecting | Connected | Disconnected

  /**
   `retireSent` and `stopSent` are what is in its mailbox, `retired` that it has
   acted on the first; `reported` is its guard against a second terminal notice.
   `name` is what it was registered under, `username` what it calls its peer: a peer
   that introduces itself in mid-connection changes that.
   */
  datatype Actor = Actor(
    name: string,
    username: string,
    outbound: bool,
    phase: Phase,
    established: bool,
    retireSent: bool,
    retired: bool,
    stopSent: bool,
    reported: bool,
    running: bool)

  datatype Outcome = Clean | Lost | Unreachable

  datatype Notice = Notice(id: nat, name: string, outcome: Outcome)

  /**
   `drawn` are the ids taken by registrations that do not have the lock yet. `sent`
   is every terminal notice there was; the first `handled` have been acted on.
   */
  datatype State = State(
    peers: Peers,
    actors: map<nat, Actor>,
    nextId: nat,
    drawn: set<nat>,
    sent: seq<Notice>,
    handled: nat)

  const EMPTY := State(map[], map[], 1, {}, [], 0)

  // ---- Under the map's lock ----

  function Slots(capacity: nat): (n: nat)
    ensures n >= 1
  {
    if capacity > 1 then capacity else 1
  }

  predicate IsVictim(peers: Peers, protected: set<string>, name: string) {
    && name in peers && name !in protected
    && forall other :: other in peers && other !in protected ==> peers[name] <= peers[other]
  }

  predicate OneOwner(peers: Peers) {
    forall a, b :: a in peers && b in peers && peers[a] == peers[b] ==> a == b
  }

  /** The peer with the least id that is not protected. */
  ghost function Victim(peers: Peers, protected: set<string>): (v: Option<string>)
    ensures v.Some? ==> IsVictim(peers, protected, v.value)
    ensures v.None? ==> forall name :: name in peers ==> name in protected
  {
    if exists name :: IsVictim(peers, protected, name)
    then var name :| IsVictim(peers, protected, name); Some(name)
    else VictimExists(peers, protected); None
  }

  lemma VictimExists(peers: Peers, protected: set<string>)
    ensures (exists name :: IsVictim(peers, protected, name)) || forall name :: name in peers ==> name in protected
  {
    var free := peers.Keys - protected;
    OldestOf(peers, protected, free);
    if free != {} {
      var name :| name in free && forall other :: other in free ==> peers[name] <= peers[other];
      assert IsVictim(peers, protected, name);
    } else {
      assert forall name :: name in peers && name !in protected ==> name in free;
    }
  }

  lemma {:induction false} OldestOf(peers: Peers, protected: set<string>, some: set<string>)
    requires some <= peers.Keys - protected
    ensures some != {} ==>
              exists name :: name in some && forall other :: other in some ==> peers[name] <= peers[other]
  {
    if some != {} {
      var x :| x in some;
      var rest := some - {x};
      OldestOf(peers, protected, rest);
      if rest == {} {
        assert some == {x};
      } else {
        var y :| y in rest && forall other :: other in rest ==> peers[y] <= peers[other];
        var z := if peers[x] <= peers[y] then x else y;
        assert forall other :: other in some ==> other == x || other in rest;
        assert z in some && forall other :: other in some ==> peers[z] <= peers[other];
      }
    }
  }

  /** How a registration went: the new map, and the actors told to stop and to retire. */
  datatype Admission = Admission(peers: Peers, admitted: bool, evicted: Option<nat>, replaced: Option<nat>)

  ghost function Admit(peers: Peers, capacity: nat, name: string, id: nat, protected: set<string>, spawns: bool): Admission {
    if |peers| >= Slots(capacity) && name !in peers then
      var victim := Victim(peers, protected);
      if victim.None? then Admission(peers, false, None, None)
      else
        var left := peers - {victim.value};
        Admission(if spawns then left[name := id] else left, spawns, Some(peers[victim.value]), None)
    else if !spawns then Admission(peers, false, None, None)
    else Admission(peers[name := id], true, None, if name in peers then Some(peers[name]) else None)
  }

  /** `remove_peer_if`: the map without `name`, if it still holds `id`. */
  function RemoveIf(peers: Peers, name: string, id: nat): Peers {
    if name in peers && peers[name] == id then peers - {name} else peers
  }

  // ---- Messages to actors ----

  function Stopped(actors: map<nat, Actor>, id: Option<nat>): map<nat, Actor> {
    if id.Some? && id.value in actors then actors[id.value := actors[id.value].(stopSent := true)] else actors
  }

  function Retired(actors: map<nat, Actor>, id: Option<nat>): map<nat, Actor> {
    if id.Some? && id.value in actors then actors[id.value := actors[id.value].(retireSent := true)] else actors
  }

  function StopEach(actors: map<nat, Actor>, ids: set<nat>): map<nat, Actor> {
    map id | id in actors :: if id in ids then actors[id].(stopSent := true) else actors[id]
  }

  // ---- The actors ----

  function NewActor(name: string, outbound: bool): Actor {
    Actor(name, name, outbound, Fresh, false, false, false, false, false, true)
  }

  /** `disconnect`: the stream goes, and the first time a notice does. */
  function Disconnect(s: State, id: nat, outcome: Outcome): State
    requires id in s.actors
  {
    var a := s.actors[id];
    var after := s.(actors := s.actors[id := a.(phase := Disconnected, reported := true)]);
    if a.reported then after else after.(sent := s.sent + [Notice(id, a.username, outcome)])
  }

  /** `disconnect_with_error`: a retired connection just goes, a dial that never got through is unreachable. */
  function DisconnectWithError(s: State, id: nat): State
    requires id in s.actors
  {
    var a := s.actors[id];
    Disconnect(s, id, if a.retired then Clean else if a.outbound && !a.established then Unreachable else Lost)
  }

  datatype Event =
    | Draw
    | Register(id: nat, name: string, outbound: bool, limit: nat, protected: set<string>, spawns: bool)
    | Remove(name: string)
    | StopAll
    | HandleNotice
    | Start(id: nat, reached: bool)
    | Establish(id: nat)
    | Fail(id: nat)
    | Close(id: nat)
    | HandleRetire(id: nat)
    | Tick(id: nat)
    | HandleStop(id: nat)
    | SetUsername(id: nat, username: string)

  /** The client loop acts on one notice: its actor goes, if it still holds the place. */
  function Acted(s: State, n: Notice): State {
    if n.name in s.peers && s.peers[n.name] == n.id
    then s.(peers := RemoveIf(s.peers, n.name, n.id), actors := Stopped(s.actors, Some(n.id)))
    else s
  }

  ghost function Step(s: State, e: Event): State {
    match e
    case Draw => s.(drawn := s.drawn + {s.nextId}, nextId := s.nextId + 1)
    case Register(id, name, outbound, limit, protected, spawns) =>
      if id !in s.drawn then s else
      var r := Admit(s.peers, limit, name, id, protected, spawns);
      var told := Retired(Stopped(s.actors, r.evicted), r.replaced);
      s.(peers := r.peers,
         actors := if r.admitted then told[id := NewActor(name, outbound)] else told,
         drawn := s.drawn - {id})
    case Remove(name) =>
      if name in s.peers
      then s.(peers := s.peers - {name}, actors := Stopped(s.actors, Some(s.peers[name])))
      else s
    case StopAll => s.(peers := map[], actors := StopEach(s.actors, s.peers.Values))
    case HandleNotice =>
      if s.handled >= |s.sent| then s else Acted(s, s.sent[s.handled]).(handled := s.handled + 1)
    case _ => if e.id in s.actors && s.actors[e.id].running then Act(s, e) else s
  }

  predicate OfActor(e: Event) {
    e.Start? || e.Establish? || e.Fail? || e.Close? || e.HandleRetire? || e.Tick? || e.HandleStop? || e.SetUsername?
  }

  /** One step of a running actor. The name it goes by after its notice makes no difference. */
  function Act(s: State, e: Event): State
    requires OfActor(e)
    requires e.id in s.actors
  {
    var id := e.id;
    var a := s.actors[id];
    match e
    case Start(_, reached) =>
      if a.phase != Fresh then s
      else if !a.outbound then s.(actors := s.actors[id := a.(phase := Connected, established := true)])
      else if reached then s.(actors := s.actors[id := a.(phase := Connecting)])
      else DisconnectWithError(s, id)
    case Establish(_) =>
      if a.phase != Connecting then s else s.(actors := s.actors[id := a.(phase := Connected, established := true)])
    case Fail(_) => if a.phase == Connecting || a.phase == Connected then DisconnectWithError(s, id) else s
    case Close(_) => if a.phase == Connected then Disconnect(s, id, Clean) else s
    case HandleRetire(_) =>
      if a.phase == Fresh || !a.retireSent || a.retired then s
      else
        var noted := s.(actors := s.actors[id := a.(retired := true)]);
        if a.phase == Connecting then Disconnect(noted, id, Clean) else noted
    case Tick(_) =>
      if a.phase == Disconnected && a.retired then s.(actors := s.actors[id := a.(stopSent := true)]) else s
    case HandleStop(_) =>
      if a.phase == Fresh || !a.stopSent then s
      else
        var gone := Disconnect(s, id, Clean);
        gone.(actors := gone.actors[id := gone.actors[id].(running := false)])
    case SetUsername(_, username) =>
      if a.reported then s else s.(actors := s.actors[id := a.(username := username)])
  }

  ghost function Run(events: seq<Event>): State {
    if events == [] then EMPTY else Step(Run(events[..|events| - 1]), events[|events| - 1])
  }

  // ---- What every run keeps ----

  /** How many terminal notices an actor has sent. */
  function Notices(sent: seq<Notice>, id: nat): nat {
    if sent == [] then 0
    else Notices(sent[..|sent| - 1], id) + (if sent[|sent| - 1].id == id then 1 else 0)
  }

  predicate Pending(s: State, id: nat) {
    exists i :: s.handled <= i < |s.sent| && s.sent[i].id == id
  }

  /** Each entry is held by the actor made for it, which has been told neither to stop nor to retire. */
  predicate Entries(s: State) {
    forall name :: name in s.peers ==>
      && s.peers[name] in s.actors
      && var a := s.actors[s.peers[name]];
         a.name == name && a.running && !a.stopSent && !a.retireSent
  }

  /** The actor has ended, and its notice bears this name. */
  predicate EndedAs(actors: map<nat, Actor>, id: nat, name: string) {
    id in actors && actors[id].reported && actors[id].username == name
  }

  /** An entry whose actor has ended under the entry's name is about to be removed. */
  predicate EndsAreKnown(s: State) {
    forall name :: name in s.peers && EndedAs(s.actors, s.peers[name], name) ==> Pending(s, s.peers[name])
  }

  predicate Told(s: State, id: nat)
    requires id in s.actors
  {
    && id < s.nextId
    && (!s.actors[id].running ==> s.actors[id].reported)
    && (s.actors[id].retired ==> s.actors[id].retireSent)
    && (s.actors[id].phase == Disconnected ==> s.actors[id].reported)
    && Notices(s.sent, id) == if s.actors[id].reported then 1 else 0
  }

  predicate Actors(s: State) {
    && (forall id :: id in s.actors ==> Told(s, id))
    && (forall id :: id in s.drawn ==> id < s.nextId && id !in s.actors)
  }

  /** An actor the registry no longer holds has been told to go. */
  predicate NoneForgotten(s: State) {
    forall id :: id in s.actors && s.actors[id].running && id !in s.peers.Values ==>
      s.actors[id].stopSent || s.actors[id].retireSent
  }

  predicate Named(s: State) {
    && s.handled <= |s.sent|
    && forall i :: 0 <= i < |s.sent| ==>
         s.sent[i].id in s.actors && s.actors[s.sent[i].id].username == s.sent[i].name && s.actors[s.sent[i].id].reported
  }

  predicate Inv(capacity: nat, s: State) {
    && |s.peers| <= Slots(capacity)
    && Entries(s) && EndsAreKnown(s) && Actors(s) && NoneForgotten(s) && Named(s)
  }

  // ---- Preservation: the actors' steps ----

  /** An actor moves without a word: its mailbox and name stay, and it tells itself to stop only once retired. */
  predicate Quiet(a: Actor, b: Actor) {
    && b.name == a.name && b.retireSent == a.retireSent && b.reported == a.reported
    && (a.reported ==> b.username == a.username)
    && (b.running == a.running || (a.stopSent && a.reported && !b.running))
    && (b.stopSent == a.stopSent || (a.retireSent && b.stopSent))
    && (b.retired ==> b.retireSent)
    && (b.phase == Disconnected ==> b.reported)
  }

  lemma QuietKeeps(capacity: nat, s: State, id: nat, b: Actor)
    requires Inv(capacity, s) && id in s.actors && Quiet(s.actors[id], b)
    ensures Inv(capacity, s.(actors := s.actors[id := b]))
  {
    hide Entries, EndsAreKnown, Actors, NoneForgotten, Named;
    QuietEntries(s, id, b);
    QuietEnds(s, id, b);
    QuietTold(s, id, b);
    QuietForgotten(s, id, b);
    QuietNamed(s, id, b);
  }

  lemma QuietEntries(s: State, id: nat, b: Actor)
    requires Entries(s) && Actors(s) && id in s.actors && Quiet(s.actors[id], b)
    ensures Entries(s.(actors := s.actors[id := b]))
  {
    assert Told(s, id);
    hide Notices, Actors;
  }

  lemma QuietNamed(s: State, id: nat, b: Actor)
    requires Named(s) && id in s.actors && Quiet(s.actors[id], b)
    ensures Named(s.(actors := s.actors[id := b]))
  {
  }

  lemma QuietTold(s: State, id: nat, b: Actor)
    requires Actors(s) && id in s.actors && Quiet(s.actors[id], b)
    ensures Actors(s.(actors := s.actors[id := b]))
  {
    hide Notices;
    var t := s.(actors := s.actors[id := b]);
    forall other | other in t.actors
      ensures Told(t, other)
    {
      assert Told(s, other);
    }
  }

  lemma QuietEnds(s: State, id: nat, b: Actor)
    requires EndsAreKnown(s) && id in s.actors && b.reported == s.actors[id].reported
    requires b.reported ==> b.username == s.actors[id].username
    ensures EndsAreKnown(s.(actors := s.actors[id := b]))
  {
    var t := s.(actors := s.actors[id := b]);
    forall name | name in t.peers && EndedAs(t.actors, t.peers[name], name)
      ensures Pending(t, t.peers[name])
    {
      assert Pending(s, s.peers[name]);
    }
  }

  lemma QuietForgotten(s: State, id: nat, b: Actor)
    requires NoneForgotten(s) && id in s.actors && Quiet(s.actors[id], b)
    ensures NoneForgotten(s.(actors := s.actors[id := b]))
  {
    assert s.actors[id].running && id !in s.peers.Values ==> s.actors[id].stopSent || s.actors[id].retireSent;
  }

  lemma NoticesMore(sent: seq<Notice>, n: Notice, id: nat)
    ensures Notices(sent + [n], id) == Notices(sent, id) + (if n.id == id then 1 else 0)
  {
    assert (sent + [n])[..|sent|] == sent;
  }

  lemma DisconnectKeeps(capacity: nat, s: State, id: nat, outcome: Outcome)
    requires Inv(capacity, s) && id in s.actors
    ensures Inv(capacity, Disconnect(s, id, outcome))
  {
    var a := s.actors[id];
    assert Told(s, id);
    if a.reported {
      QuietKeeps(capacity, s, id, a.(phase := Disconnected));
      assert a.(phase := Disconnected) == a.(phase := Disconnected, reported := true);
    } else {
      ReportKeeps(capacity, s, id, outcome);
    }
    hide Inv;
  }

  lemma ReportKeeps(capacity: nat, s: State, id: nat, outcome: Outcome)
    requires Inv(capacity, s) && id in s.actors && !s.actors[id].reported
    ensures Inv(capacity, Disconnect(s, id, outcome))
  {
    hide Entries, EndsAreKnown, Actors, NoneForgotten, Named;
    ReportTold(s, id, outcome);
    assert s.handled <= |s.sent| by {
      HandledIsSent(s);
    }
    ReportEnds(s, id, outcome);
    ReportRest(s, id, outcome);
  }

  lemma HandledIsSent(s: State)
    requires Named(s)
    ensures s.handled <= |s.sent|
  {
  }

  lemma ReportRest(s: State, id: nat, outcome: Outcome)
    requires Entries(s) && NoneForgotten(s) && Named(s) && id in s.actors
    ensures var t := Disconnect(s, id, outcome); Entries(t) && NoneForgotten(t) && Named(t)
  {
    ReportForgotten(s, id, outcome);
    hide NoneForgotten;
  }

  lemma ReportForgotten(s: State, id: nat, outcome: Outcome)
    requires NoneForgotten(s) && id in s.actors
    ensures NoneForgotten(Disconnect(s, id, outcome))
  {
    assert s.actors[id].running && id !in s.peers.Values ==> s.actors[id].stopSent || s.actors[id].retireSent;
  }

  lemma ReportTold(s: State, id: nat, outcome: Outcome)
    requires Actors(s) && id in s.actors && !s.actors[id].reported
    ensures Actors(Disconnect(s, id, outcome))
  {
    hide Notices;
    var t := Disconnect(s, id, outcome);
    forall other | other in t.actors
      ensures Told(t, other)
    {
      assert Told(s, other);
      NoticesMore(s.sent, Notice(id, s.actors[id].username, outcome), other);
    }
  }

  lemma ReportEnds(s: State, id: nat, outcome: Outcome)
    requires EndsAreKnown(s) && id in s.actors && !s.actors[id].reported && s.handled <= |s.sent|
    ensures EndsAreKnown(Disconnect(s, id, outcome))
  {
    var t := Disconnect(s, id, outcome);
    forall name | name in t.peers && EndedAs(t.actors, t.peers[name], name)
      ensures Pending(t, t.peers[name])
    {
      if t.peers[name] == id {
        assert t.sent[|s.sent|].id == id;
      } else {
        assert Pending(s, s.peers[name]);
        var i :| s.handled <= i < |s.sent| && s.sent[i].id == s.peers[name];
        assert t.sent[i] == s.sent[i];
      }
    }
  }

  lemma ActKeeps(capacity: nat, s: State, e: Event)
    requires OfActor(e)
    requires e.id in s.actors && s.actors[e.id].running
    requires Inv(capacity, s)
    ensures Inv(capacity, Act(s, e))
  {
    hide Inv, Disconnect, DisconnectWithError;
    if e.Close? {
      DisconnectKeeps(capacity, s, e.id, Clean);
    } else if e.Fail? {
      FailKeeps(capacity, s, e.id);
    } else {
      hide Act;
      match e
      case Start(id, reached) => StartKeeps(capacity, s, id, reached);
      case HandleRetire(id) => RetireKeeps(capacity, s, id);
      case HandleStop(id) => EndKeeps(capacity, s, id);
      case _ => QuietActKeeps(capacity, s, e);
    }
  }

  lemma EndKeeps(capacity: nat, s: State, id: nat)
    requires Inv(capacity, s) && id in s.actors && s.actors[id].running
    ensures Inv(capacity, Act(s, HandleStop(id)))
  {
    var a := s.actors[id];
    assert Told(s, id);
    hide Inv, Told, Notices, Disconnect;
    if a.phase != Fresh && a.stopSent {
      DisconnectKeeps(capacity, s, id, Clean);
      StopKeeps(capacity, s, id);
    }
  }

  lemma QuietActKeeps(capacity: nat, s: State, e: Event)
    requires (e.Establish? || e.Tick? || e.SetUsername?) && Inv(capacity, s) && e.id in s.actors && s.actors[e.id].running
    ensures Inv(capacity, Act(s, e))
  {
    var a := s.actors[e.id];
    assert Told(s, e.id);
    hide Inv, Notices;
    if e.Establish? && a.phase == Connecting {
      QuietKeeps(capacity, s, e.id, a.(phase := Connected, established := true));
    } else if e.Tick? && a.phase == Disconnected && a.retired {
      QuietKeeps(capacity, s, e.id, a.(stopSent := true));
    } else if e.SetUsername? && !a.reported {
      QuietKeeps(capacity, s, e.id, a.(username := e.username));
    }
  }

  lemma StartKeeps(capacity: nat, s: State, id: nat, reached: bool)
    requires Inv(capacity, s) && id in s.actors && s.actors[id].running
    ensures Inv(capacity, Act(s, Start(id, reached)))
  {
    var a := s.actors[id];
    assert Told(s, id);
    hide Inv, Told, Notices, Disconnect;
    if a.phase == Fresh && !a.outbound {
      QuietKeeps(capacity, s, id, a.(phase := Connected, established := true));
    } else if a.phase == Fresh && reached {
      QuietKeeps(capacity, s, id, a.(phase := Connecting));
    } else {
      FailKeeps(capacity, s, id);
    }
  }

  lemma RetireKeeps(capacity: nat, s: State, id: nat)
    requires Inv(capacity, s) && id in s.actors
    ensures Inv(capacity, Act(s, HandleRetire(id)))
  {
    assert Told(s, id);
    hide Inv, Notices, Disconnect;
    var a := s.actors[id];
    if a.phase != Fresh && a.retireSent && !a.retired {
      QuietKeeps(capacity, s, id, a.(retired := true));
      DisconnectKeeps(capacity, s.(actors := s.actors[id := a.(retired := true)]), id, Clean);
    }
  }

  lemma FailKeeps(capacity: nat, s: State, id: nat)
    requires Inv(capacity, s) && id in s.actors
    ensures Inv(capacity, DisconnectWithError(s, id))
  {
    var a := s.actors[id];
    DisconnectKeeps(capacity, s, id, if a.retired then Clean else if a.outbound && !a.established then Unreachable else Lost);
    hide Inv, Disconnect;
  }

  lemma StopKeeps(capacity: nat, s: State, id: nat)
    requires id in s.actors && s.actors[id].stopSent && (s.actors[id].retired ==> s.actors[id].retireSent)
    requires Inv(capacity, Disconnect(s, id, Clean))
    ensures var gone := Disconnect(s, id, Clean);
            Inv(capacity, gone.(actors := gone.actors[id := gone.actors[id].(running := false)]))
  {
    hide Inv;
    var gone := Disconnect(s, id, Clean);
    QuietKeeps(capacity, gone, id, gone.actors[id].(running := false));
  }

  // ---- Preservation: the registry's steps ----

  /** Nothing an entry relies on but its mailbox is touched when others are told to go. */
  predicate OnlyTold(before: map<nat, Actor>, after: map<nat, Actor>) {
    && after.Keys == before.Keys
    && forall id :: id in before ==>
         && after[id] == before[id].(stopSent := after[id].stopSent, retireSent := after[id].retireSent)
         && (before[id].stopSent ==> after[id].stopSent)
         && (before[id].retireSent ==> after[id].retireSent)
  }

  /** Entries may go, and all who go must be told; the entries that stay must not be. */
  predicate LeavesWell(s: State, left: Peers, actors: map<nat, Actor>) {
    && (forall name :: name in left ==> name in s.peers && left[name] == s.peers[name])
    && OnlyTold(s.actors, actors)
    && (forall name :: name in left && s.peers[name] in s.actors ==> actors[s.peers[name]] == s.actors[s.peers[name]])
    && (forall name :: name in s.peers && name !in left && s.peers[name] in s.actors ==>
          actors[s.peers[name]].stopSent || actors[s.peers[name]].retireSent)
  }

  lemma LeavingKeeps(capacity: nat, s: State, left: Peers, actors: map<nat, Actor>)
    requires Inv(capacity, s) && LeavesWell(s, left, actors)
    ensures Inv(capacity, s.(peers := left, actors := actors))
  {
    hide Entries, EndsAreKnown, Actors, NoneForgotten, Named;
    LeavingIsFewer(s, left, actors);
    LeavingTold(s, left, actors);
    LeavingEnds(s, left, actors);
    LeavingForgotten(s, left, actors);
    LeavingRest(s, left, actors);
  }

  lemma LeavingIsFewer(s: State, left: Peers, actors: map<nat, Actor>)
    requires LeavesWell(s, left, actors)
    ensures |left| <= |s.peers|
  {
    assert left.Keys <= s.peers.Keys;
    Fewer(left.Keys, s.peers.Keys);
  }

  lemma LeavingRest(s: State, left: Peers, actors: map<nat, Actor>)
    requires Entries(s) && Named(s) && LeavesWell(s, left, actors)
    ensures var t := s.(peers := left, actors := actors); Entries(t) && Named(t)
  {
  }

  lemma LeavingTold(s: State, left: Peers, actors: map<nat, Actor>)
    requires Actors(s) && LeavesWell(s, left, actors)
    ensures Actors(s.(peers := left, actors := actors))
  {
    hide Notices;
    forall id | id in actors
      ensures Told(s.(peers := left, actors := actors), id)
    {
      assert Told(s, id);
    }
  }

  lemma LeavingEnds(s: State, left: Peers, actors: map<nat, Actor>)
    requires EndsAreKnown(s) && LeavesWell(s, left, actors)
    ensures EndsAreKnown(s.(peers := left, actors := actors))
  {
    var t := s.(peers := left, actors := actors);
    forall name | name in left && EndedAs(actors, left[name], name)
      ensures Pending(t, left[name])
    {
      assert Pending(s, s.peers[name]);
    }
  }

  lemma LeavingForgotten(s: State, left: Peers, actors: map<nat, Actor>)
    requires NoneForgotten(s) && LeavesWell(s, left, actors)
    ensures NoneForgotten(s.(peers := left, actors := actors))
  {
    forall id | id in actors && actors[id].running && id !in left.Values
      ensures actors[id].stopSent || actors[id].retireSent
    {
      if id in s.peers.Values {
        var name :| name in s.peers && s.peers[name] == id;
        assert name !in left;
      }
    }
  }

  /** Taking one name out and telling its actor to stop leaves well. */
  lemma OneLeaves(capacity: nat, s: State, name: string)
    requires Inv(capacity, s) && name in s.peers
    ensures LeavesWell(s, s.peers - {name}, Stopped(s.actors, Some(s.peers[name])))
  {
    hide Notices, EndsAreKnown, Actors, NoneForgotten, Named;
    var left := s.peers - {name};
    forall other | other in left
      ensures s.peers[other] != s.peers[name]
    {
      assert s.actors[s.peers[other]].name == other;
    }
  }

  lemma AllLeave(s: State)
    requires Entries(s)
    ensures LeavesWell(s, map[], StopEach(s.actors, s.peers.Values))
  {
  }

  function Entered(s: State, id: nat, name: string, outbound: bool): State {
    s.(peers := s.peers[name := id],
       actors := s.actors[id := NewActor(name, outbound)],
       drawn := s.drawn - {id})
  }

  /** A new actor under a free name. */
  lemma EnteringKeeps(capacity: nat, s: State, id: nat, name: string, outbound: bool)
    requires Inv(capacity, s) && id in s.drawn && name !in s.peers && |s.peers| < Slots(capacity)
    ensures Inv(capacity, Entered(s, id, name, outbound))
  {
    hide Entries, EndsAreKnown, Actors, NoneForgotten, Named;
    NewIsFresh(s, id);
    EnteringTold(s, id, name, outbound);
    EnteringEnds(s, id, name, outbound);
    EnteringForgotten(s, id, name, outbound);
    EnteringRest(s, id, name, outbound);
    OneMore(s.peers, name, id);
  }

  lemma EnteringRest(s: State, id: nat, name: string, outbound: bool)
    requires Entries(s) && Named(s) && id !in s.actors
    ensures Entries(Entered(s, id, name, outbound)) && Named(Entered(s, id, name, outbound))
  {
  }

  lemma NewIsFresh(s: State, id: nat)
    requires Actors(s) && id in s.drawn
    ensures id !in s.actors
  {
  }

  lemma EnteringTold(s: State, id: nat, name: string, outbound: bool)
    requires Actors(s) && Named(s) && id in s.drawn
    ensures Actors(Entered(s, id, name, outbound))
  {
    hide Notices;
    NewIsFresh(s, id);
    NobodySpoke(s.sent, id);
    forall other | other in Entered(s, id, name, outbound).actors
      ensures Told(Entered(s, id, name, outbound), other)
    {
      if other != id {
        assert Told(s, other);
      }
    }
  }

  lemma EnteringEnds(s: State, id: nat, name: string, outbound: bool)
    requires EndsAreKnown(s) && Entries(s) && id !in s.actors
    ensures EndsAreKnown(Entered(s, id, name, outbound))
  {
    var t := Entered(s, id, name, outbound);
    forall other | other in t.peers && EndedAs(t.actors, t.peers[other], other)
      ensures Pending(t, t.peers[other])
    {
      assert Pending(s, s.peers[other]);
    }
  }

  lemma EnteringForgotten(s: State, id: nat, name: string, outbound: bool)
    requires NoneForgotten(s) && name !in s.peers
    ensures NoneForgotten(Entered(s, id, name, outbound))
  {
    var t := Entered(s, id, name, outbound);
    assert t.peers[name] == id;
    forall held | held in s.peers.Values
      ensures held in t.peers.Values
    {
      var other :| other in s.peers && s.peers[other] == held;
      assert t.peers[other] == held;
    }
  }

  lemma {:induction false} NobodySpoke(sent: seq<Notice>, id: nat)
    requires forall i :: 0 <= i < |sent| ==> sent[i].id != id
    ensures Notices(sent, id) == 0
  {
    if sent != [] {
      NobodySpoke(sent[..|sent| - 1], id);
    }
  }

  // ---- Registrations and notices ----

  lemma OneStopKeeps(capacity: nat, s: State, name: string)
    requires Inv(capacity, s) && name in s.peers
    ensures Inv(capacity, s.(peers := s.peers - {name}, actors := Stopped(s.actors, Some(s.peers[name]))))
  {
    OneLeaves(capacity, s, name);
    LeavingKeeps(capacity, s, s.peers - {name}, Stopped(s.actors, Some(s.peers[name])));
    hide Inv, LeavesWell;
  }

  lemma OneRetireKeeps(capacity: nat, s: State, name: string)
    requires Inv(capacity, s) && name in s.peers
    ensures Inv(capacity, s.(peers := s.peers - {name}, actors := Retired(s.actors, Some(s.peers[name]))))
  {
    OneRetires(capacity, s, name);
    LeavingKeeps(capacity, s, s.peers - {name}, Retired(s.actors, Some(s.peers[name])));
    hide Inv, LeavesWell;
  }

  lemma OneRetires(capacity: nat, s: State, name: string)
    requires Inv(capacity, s) && name in s.peers
    ensures LeavesWell(s, s.peers - {name}, Retired(s.actors, Some(s.peers[name])))
  {
    hide Notices, EndsAreKnown, Actors, NoneForgotten, Named;
    var left := s.peers - {name};
    forall other | other in left
      ensures s.peers[other] != s.peers[name]
    {
      assert s.actors[s.peers[other]].name == other;
    }
  }

  lemma WithoutOne(peers: Peers, name: string, id: nat)
    requires name in peers
    ensures |peers - {name}| == |peers| - 1
    ensures (peers - {name})[name := id] == peers[name := id]
  {
    assert (peers - {name}).Keys == peers.Keys - {name};
  }

  lemma PoolKeeps(capacity: nat, s: State, t: State)
    requires Inv(capacity, s) && t == s.(nextId := t.nextId, drawn := t.drawn) && t.nextId >= s.nextId
    requires forall id :: id in t.drawn ==> id < t.nextId && (id in s.drawn || id >= s.nextId)
    ensures Inv(capacity, t)
  {
    hide Entries, EndsAreKnown, Actors, NoneForgotten, Named;
    PoolTold(s, t);
    PoolEnds(s, t);
    PoolRest(s, t);
  }

  lemma PoolTold(s: State, t: State)
    requires Actors(s) && t == s.(nextId := t.nextId, drawn := t.drawn) && t.nextId >= s.nextId
    requires forall id :: id in t.drawn ==> id < t.nextId && (id in s.drawn || id >= s.nextId)
    ensures Actors(t)
  {
    hide Notices;
    forall id | id in t.actors
      ensures Told(t, id) && id < s.nextId
    {
      assert Told(s, id);
    }
  }

  lemma PoolEnds(s: State, t: State)
    requires EndsAreKnown(s) && t == s.(nextId := t.nextId, drawn := t.drawn)
    ensures EndsAreKnown(t)
  {
    forall name | name in t.peers && EndedAs(t.actors, t.peers[name], name)
      ensures Pending(t, t.peers[name])
    {
      assert Pending(s, s.peers[name]);
    }
  }

  lemma PoolRest(s: State, t: State)
    requires Entries(s) && NoneForgotten(s) && Named(s) && t == s.(nextId := t.nextId, drawn := t.drawn)
    ensures Entries(t) && NoneForgotten(t) && Named(t)
  {
  }

  /** What a registration clears away first: the victim when the map is full, the actor it replaces when there is one. */
  ghost function Cleared(s: State, r: Admission, protected: set<string>, name: string): State {
    if r.evicted.Some? && Victim(s.peers, protected).Some? then
      s.(peers := s.peers - {Victim(s.peers, protected).value}, actors := Stopped(s.actors, r.evicted))
    else if r.replaced.Some? then s.(peers := s.peers - {name}, actors := Retired(s.actors, r.replaced))
    else s
  }

  lemma ClearingKeeps(capacity: nat, s: State, limit: nat, id: nat, name: string, protected: set<string>, spawns: bool)
    requires Inv(capacity, s) && limit <= capacity
    ensures var r := Admit(s.peers, limit, name, id, protected, spawns);
            var t := Cleared(s, r, protected, name);
            && Inv(capacity, t) && t.nextId == s.nextId && t.drawn == s.drawn
            && t.actors == Retired(Stopped(s.actors, r.evicted), r.replaced)
            && (r.admitted ==> name !in t.peers && |t.peers| < Slots(capacity) && r.peers == t.peers[name := id])
            && (!r.admitted ==> r.peers == t.peers)
  {
    BoundIs(capacity, s);
    SlotsGrow(limit, capacity);
    hide Inv, Slots, Stopped, Retired;
    var r := Admit(s.peers, limit, name, id, protected, spawns);
    NoneTold(s.actors);
    if r.evicted.Some? {
      var victim := Victim(s.peers, protected).value;
      OneStopKeeps(capacity, s, victim);
      WithoutOne(s.peers, victim, 0);
      NoneTold(Stopped(s.actors, r.evicted));
    } else if r.replaced.Some? {
      OneRetireKeeps(capacity, s, name);
      WithoutOne(s.peers, name, id);
    }
  }

  lemma SlotsGrow(a: nat, b: nat)
    requires a <= b
    ensures Slots(a) <= Slots(b)
  {
  }

  lemma BoundIs(capacity: nat, s: State)
    requires Inv(capacity, s)
    ensures |s.peers| <= Slots(capacity)
  {
  }

  lemma NoneTold(actors: map<nat, Actor>)
    ensures Stopped(actors, None) == actors && Retired(actors, None) == actors
  {
  }

  lemma RegisterKeeps(
      capacity: nat, s: State, id: nat, name: string, outbound: bool, limit: nat, protected: set<string>, spawns: bool)
    requires Inv(capacity, s) && id in s.drawn && limit <= capacity
    ensures Inv(capacity, Step(s, Register(id, name, outbound, limit, protected, spawns)))
  {
    PoolIs(capacity, s);
    hide Inv, Admit, Cleared, Stopped, Retired, Slots;
    ClearingKeeps(capacity, s, limit, id, name, protected, spawns);
    var r := Admit(s.peers, limit, name, id, protected, spawns);
    var t := Cleared(s, r, protected, name);
    ClearedRest(s, r, protected, name);
    if r.admitted {
      EnteringKeeps(capacity, t, id, name, outbound);
      assert Step(s, Register(id, name, outbound, limit, protected, spawns)) == Entered(t, id, name, outbound);
    } else {
      PoolKeeps(capacity, t, t.(drawn := t.drawn - {id}));
    }
  }

  lemma PoolIs(capacity: nat, s: State)
    requires Inv(capacity, s)
    ensures forall id :: id in s.drawn ==> id < s.nextId
  {
    hide Told;
  }

  lemma ClearedRest(s: State, r: Admission, protected: set<string>, name: string)
    ensures var t := Cleared(s, r, protected, name); t.sent == s.sent && t.handled == s.handled
  {
  }

  lemma HandleKeeps(capacity: nat, s: State)
    requires Inv(capacity, s)
    ensures Inv(capacity, Step(s, HandleNotice))
  {
    hide Inv, Acted;
    if s.handled < |s.sent| {
      var n := s.sent[s.handled];
      HandleLeaves(capacity, s, n);
      ActedKeeps(capacity, s, n);
      HandledKeeps(capacity, Acted(s, n), n);
    }
  }

  lemma ActedKeeps(capacity: nat, s: State, n: Notice)
    requires Inv(capacity, s)
    ensures Inv(capacity, Acted(s, n)) && Acted(s, n).sent == s.sent && Acted(s, n).handled == s.handled
  {
    hide Inv, Stopped;
    if n.name in s.peers && s.peers[n.name] == n.id {
      OneStopKeeps(capacity, s, n.name);
    }
  }

  /** The entry that the notice names, if it is still that actor's, is the one that goes. */
  lemma HandleLeaves(capacity: nat, s: State, n: Notice)
    requires Inv(capacity, s) && s.handled < |s.sent| && s.sent[s.handled] == n
    ensures !HoldsItsName(Acted(s, n), n.id)
  {
    hide Actors, NoneForgotten, EndsAreKnown;
    assert s.actors[n.id].username == n.name;
    assert forall name :: name in s.peers && s.peers[name] == n.id ==> s.actors[n.id].name == name;
  }

  /** The actor with this id has ended and holds an entry under the name it went by. */
  predicate HoldsItsName(s: State, id: nat) {
    exists name :: name in s.peers && s.peers[name] == id && EndedAs(s.actors, id, name)
  }

  lemma HandledKeeps(capacity: nat, s: State, n: Notice)
    requires Inv(capacity, s) && s.handled < |s.sent| && s.sent[s.handled] == n && !HoldsItsName(s, n.id)
    ensures Inv(capacity, s.(handled := s.handled + 1))
  {
    hide Notices;
    var t := s.(handled := s.handled + 1);
    assert forall id :: id in t.actors ==> Told(s, id);
    forall name | name in t.peers && EndedAs(t.actors, t.peers[name], name)
      ensures Pending(t, t.peers[name])
    {
      assert Pending(s, s.peers[name]);
      var i :| s.handled <= i < |s.sent| && s.sent[i].id == s.peers[name];
      assert i != s.handled;
      assert t.sent[i].id == t.peers[name];
    }
  }

  /** The limit in force at a registration is at most `capacity`; it may be changed at any time. */
  predicate Within(capacity: nat, e: Event) {
    e.Register? ==> e.limit <= capacity
  }

  lemma StepKeeps(capacity: nat, s: State, e: Event)
    requires Inv(capacity, s) && Within(capacity, e)
    ensures Inv(capacity, Step(s, e))
  {
    hide Entries, EndsAreKnown, Actors, NoneForgotten, Named, Act, Admit;
    match e
    case Draw =>
      PoolIs(capacity, s);
      PoolKeeps(capacity, s, s.(drawn := s.drawn + {s.nextId}, nextId := s.nextId + 1));
    case Register(id, name, outbound, limit, protected, spawns) =>
      if id in s.drawn {
        RegisterKeeps(capacity, s, id, name, outbound, limit, protected, spawns);
      }
    case Remove(name) =>
      if name in s.peers {
        OneStopKeeps(capacity, s, name);
      }
    case StopAll =>
      AllLeave(s);
      LeavingKeeps(capacity, s, map[], StopEach(s.actors, s.peers.Values));
    case HandleNotice => HandleKeeps(capacity, s);
    case _ =>
      if e.id in s.actors && s.actors[e.id].running {
        ActKeeps(capacity, s, e);
      }
  }

  /** The largest limit any registration of the run was held to. */
  function MostAllowed(events: seq<Event>): nat {
    if events == [] then 0
    else
      var most, e := MostAllowed(events[..|events| - 1]), events[|events| - 1];
      if e.Register? && e.limit > most then e.limit else most
  }

  lemma InvWidens(a: nat, b: nat, s: State)
    requires Inv(a, s) && a <= b
    ensures Inv(b, s)
  {
    hide Entries, EndsAreKnown, Actors, NoneForgotten, Named;
  }

  /** Every run of registrations, late notices and the actors' own steps keeps the invariant. */
  lemma {:induction false} EveryRunKeeps(events: seq<Event>)
    ensures Inv(MostAllowed(events), Run(events))
  {
    hide Inv, Step;
    if events != [] {
      var front, e := events[..|events| - 1], events[|events| - 1];
      EveryRunKeeps(front);
      InvWidens(MostAllowed(front), MostAllowed(events), Run(front));
      StepKeeps(MostAllowed(events), Run(front), e);
    } else {
      FirstState();
    }
  }

  lemma FirstState()
    ensures Inv(0, EMPTY)
  {
  }

  // ---- What it means ----

  lemma VictimIsUnique(peers: Peers, protected: set<string>, name: string)
    requires OneOwner(peers) && IsVictim(peers, protected, name)
    ensures Victim(peers, protected) == Some(name)
  {
  }

  lemma IdsAreOnesOwn(s: State)
    requires Entries(s)
    ensures OneOwner(s.peers)
  {
    forall a, b | a in s.peers && b in s.peers && s.peers[a] == s.peers[b]
      ensures a == b
    {
      assert s.actors[s.peers[a]].name == a && s.actors[s.peers[b]].name == b;
    }
  }

  /** The registry never holds more than the largest limit there was: at a fixed capacity, never more than that. */
  lemma {:induction false} NeverOverCapacity(capacity: nat, events: seq<Event>)
    requires forall i :: 0 <= i < |events| ==> Within(capacity, events[i])
    ensures |Run(events).peers| <= Slots(capacity)
  {
    EveryRunKeeps(events);
    MostWithin(capacity, events);
    InvWidens(MostAllowed(events), capacity, Run(events));
    hide Run, MostAllowed;
  }

  lemma {:induction false} MostWithin(capacity: nat, events: seq<Event>)
    requires forall i :: 0 <= i < |events| ==> Within(capacity, events[i])
    ensures MostAllowed(events) <= capacity
  {
    if events != [] {
      MostWithin(capacity, events[..|events| - 1]);
    }
  }

  /** Once the limit has been lowered below what is held, no registration makes it more. */
  lemma NoGrowthAtTheLimit(events: seq<Event>, e: Event)
    ensures var s, t := Run(events), Step(Run(events), e);
            |t.peers| > |s.peers| ==> e.Register? && |t.peers| == |s.peers| + 1 && |t.peers| <= Slots(e.limit)
  {
    EveryRunKeeps(events);
    PeersGrow(Run(events), e);
    hide Run, Step, Inv;
  }

  /** The map after a step. */
  ghost function PeersAfter(s: State, e: Event): Peers {
    match e
    case Register(id, name, _, limit, protected, spawns) =>
      if id in s.drawn then Admit(s.peers, limit, name, id, protected, spawns).peers else s.peers
    case Remove(name) => s.peers - {name}
    case StopAll => map[]
    case HandleNotice =>
      if s.handled < |s.sent| then RemoveIf(s.peers, s.sent[s.handled].name, s.sent[s.handled].id) else s.peers
    case _ => s.peers
  }

  lemma StepPeers(s: State, e: Event)
    ensures Step(s, e).peers == PeersAfter(s, e)
  {
    hide Stopped, Retired, StopEach, Admit, Act;
    if OfActor(e) && e.id in s.actors {
      ActLeavesPeers(s, e);
    }
    if e.Remove? && e.name !in s.peers {
      assert s.peers - {e.name} == s.peers;
    }
  }

  lemma PeersGrow(s: State, e: Event)
    ensures var t := Step(s, e);
            |t.peers| > |s.peers| ==> e.Register? && |t.peers| == |s.peers| + 1 && |t.peers| <= Slots(e.limit)
  {
    hide Slots, Step, Admit, RemoveIf;
    StepPeers(s, e);
    match e
    case Register(id, name, _, limit, protected, spawns) => AdmitGrows(s.peers, limit, name, id, protected, spawns);
    case Remove(name) => TakingAwayShrinks(s.peers, name, 0);
    case HandleNotice =>
      if s.handled < |s.sent| {
        TakingAwayShrinks(s.peers, s.sent[s.handled].name, s.sent[s.handled].id);
      }
    case _ =>
  }

  lemma TakingAwayShrinks(peers: Peers, name: string, id: nat)
    ensures |peers - {name}| <= |peers| && |RemoveIf(peers, name, id)| <= |peers|
  {
    Fewer((peers - {name}).Keys, peers.Keys);
  }

  lemma AdmitGrows(peers: Peers, limit: nat, name: string, id: nat, protected: set<string>, spawns: bool)
    ensures var left := Admit(peers, limit, name, id, protected, spawns).peers;
            |left| > |peers| ==> |left| == |peers| + 1 && |left| <= Slots(limit)
  {
    hide Slots, IsVictim;
    var victim := Victim(peers, protected);
    if name in peers {
      assert peers[name := id].Keys == peers.Keys;
    } else {
      OneMore(peers, name, id);
      if victim.Some? {
        AllVictims(peers, protected);
        WithoutOne(peers, victim.value, id);
        OneMore(peers - {victim.value}, name, id);
      }
    }
  }

  /** Why a name's place can change hands, or be lost: the five ways, and no other. */
  predicate Loses(s: State, e: Event, name: string)
    requires name in s.peers
  {
    match e
    case Register(id, other, _, limit, protected, spawns) =>
      && id in s.drawn
      && (|| (other == name && spawns)
          || (other !in s.peers && |s.peers| >= Slots(limit) && IsVictim(s.peers, protected, name)))
    case Remove(other) => other == name
    case StopAll => true
    case HandleNotice => s.handled < |s.sent| && s.sent[s.handled].id == s.peers[name] && s.sent[s.handled].name == name
    case _ => false
  }

  /**
   In every reachable state a place changes only so: a late notice of a replaced or
   evicted actor never costs its successor the place, a protected peer is never
   the victim, and the victim has the least id of the others.
   */
  lemma PlaceChangesOnlySo(events: seq<Event>, e: Event, name: string)
    requires name in Run(events).peers
    ensures var s, t := Run(events), Step(Run(events), e);
            (name in t.peers && t.peers[name] == s.peers[name]) <==> !Loses(s, e, name)
  {
    EveryRunKeeps(events);
    PlaceStep(MostAllowed(events), Run(events), e, name);
    hide Inv, Step, Loses;
  }

  lemma PlaceStep(capacity: nat, s: State, e: Event, name: string)
    requires Inv(capacity, s) && name in s.peers
    ensures var t := Step(s, e);
            (name in t.peers && t.peers[name] == s.peers[name]) <==> !Loses(s, e, name)
  {
    hide Inv, Act, Admit, RemoveIf, Stopped, Retired, IsVictim, Slots;
    match e
    case Draw =>
    case Register(id, other, _, limit, protected, spawns) =>
      if id in s.drawn {
        RegisterPlace(capacity, s, limit, id, other, protected, spawns, name);
      }
    case HandleNotice =>
      if s.handled < |s.sent| {
        NoticePlace(capacity, s, name);
      }
    case Remove(_) =>
    case StopAll =>
    case _ =>
      if e.id in s.actors {
        ActLeavesPeers(s, e);
      }
  }

  lemma RegisterPlace(
      capacity: nat, s: State, limit: nat, id: nat, other: string, protected: set<string>, spawns: bool, name: string)
    requires Inv(capacity, s) && name in s.peers && id in s.drawn
    ensures var left := Admit(s.peers, limit, other, id, protected, spawns).peers;
            (name in left && left[name] == s.peers[name]) <==>
              !(|| (other == name && spawns)
                || (other !in s.peers && |s.peers| >= Slots(limit) && IsVictim(s.peers, protected, name)))
  {
    hide Inv, IsVictim, OneOwner, Slots, Victim;
    VictimIs(capacity, s, id, protected, name);
    AllVictims(s.peers, protected);
  }

  lemma VictimIs(capacity: nat, s: State, id: nat, protected: set<string>, name: string)
    requires Inv(capacity, s) && name in s.peers && id in s.drawn
    ensures s.peers[name] != id
    ensures IsVictim(s.peers, protected, name) <==> Victim(s.peers, protected) == Some(name)
  {
    IdsAreOnesOwn(s);
    NewIsFresh(s, id);
    assert s.peers[name] in s.actors;
    hide Inv, Entries, EndsAreKnown, Actors, NoneForgotten, Named;
    if IsVictim(s.peers, protected, name) {
      VictimIsUnique(s.peers, protected, name);
    }
  }

  lemma AllVictims(peers: Peers, protected: set<string>)
    ensures Victim(peers, protected).Some? ==> Victim(peers, protected).value in peers
  {
  }

  lemma NoticePlace(capacity: nat, s: State, name: string)
    requires Inv(capacity, s) && name in s.peers && s.handled < |s.sent|
    ensures var left := Acted(s, s.sent[s.handled]).peers;
            (name in left && left[name] == s.peers[name])
            <==> !(s.sent[s.handled].id == s.peers[name] && s.sent[s.handled].name == name)
  {
    hide Inv, Stopped;
  }

  lemma ActLeavesPeers(s: State, e: Event)
    requires OfActor(e)
    ensures e.id in s.actors ==> Act(s, e).peers == s.peers
  {
  }

  /** A registration takes the place exactly when its actor starts and there is room, a predecessor, or a peer to evict. */
  lemma AdmittedExactlyWhen(
      events: seq<Event>, id: nat, name: string, outbound: bool, limit: nat, protected: set<string>, spawns: bool)
    requires id in Run(events).drawn
    ensures var s := Run(events);
            var t := Step(s, Register(id, name, outbound, limit, protected, spawns));
            (name in t.peers && t.peers[name] == id) <==>
              && spawns
              && (name in s.peers || |s.peers| < Slots(limit) || exists other :: other in s.peers && other !in protected)
  {
    EveryRunKeeps(events);
    IdIsNew(MostAllowed(events), Run(events), id, name);
    AdmittedStep(Run(events), id, name, outbound, limit, protected, spawns);
    hide Run, Step, Inv;
  }

  lemma IdIsNew(capacity: nat, s: State, id: nat, name: string)
    requires Inv(capacity, s) && id in s.drawn
    ensures name in s.peers ==> s.peers[name] != id
  {
    NewIsFresh(s, id);
    hide EndsAreKnown, Actors, NoneForgotten, Named;
  }

  lemma AdmittedStep(s: State, id: nat, name: string, outbound: bool, limit: nat, protected: set<string>, spawns: bool)
    requires id in s.drawn && (name in s.peers ==> s.peers[name] != id)
    ensures var t := Step(s, Register(id, name, outbound, limit, protected, spawns));
            (name in t.peers && t.peers[name] == id) <==>
              && spawns
              && (name in s.peers || |s.peers| < Slots(limit) || exists other :: other in s.peers && other !in protected)
  {
    var free := Victim(s.peers, protected);
    if free.Some? {
      assert free.value in s.peers && free.value !in protected;
    }
    hide Slots, Stopped, Retired;
  }

  /** Its one notice was given under another name than the one it is registered under. */
  predicate Misnamed(s: State, id: nat, name: string) {
    exists i :: 0 <= i < |s.sent| && s.sent[i].id == id && s.sent[i].name != name
  }

  /**
   When the client loop has caught up, every entry is held by an actor that was made
   for it, runs, and was told neither to stop nor to retire. It is up, and has not
   ended, exactly when it has not given its notice under another name than its entry's.
   */
  lemma CaughtUpMeansAlive(events: seq<Event>)
    requires var s := Run(events); s.handled == |s.sent|
    ensures var s := Run(events);
            forall name :: name in s.peers ==>
              && s.peers[name] in s.actors
              && var a := s.actors[s.peers[name]];
                 && a.name == name && a.running && !a.stopSent && !a.retireSent
                 && (!a.reported <==> !Misnamed(s, s.peers[name], name))
  {
    EveryRunKeeps(events);
    var s := Run(events);
    forall name | name in s.peers
      ensures s.peers[name] in s.actors
      ensures s.actors[s.peers[name]].reported <==> Misnamed(s, s.peers[name], name)
    {
      EndIsMisnamed(MostAllowed(events), s, name);
    }
    hide Run, Inv, Misnamed;
    EntriesAre(MostAllowed(events), s);
  }

  lemma EntriesAre(capacity: nat, s: State)
    requires Inv(capacity, s)
    ensures Entries(s)
  {
    hide EndsAreKnown, Actors, NoneForgotten, Named, Entries;
  }

  lemma EndIsMisnamed(capacity: nat, s: State, name: string)
    requires Inv(capacity, s) && s.handled == |s.sent| && name in s.peers
    ensures s.peers[name] in s.actors
    ensures s.actors[s.peers[name]].reported <==> Misnamed(s, s.peers[name], name)
  {
    hide Notices, NoneForgotten;
    var id := s.peers[name];
    assert EndedAs(s.actors, id, name) ==> Pending(s, id);
    if s.actors[id].reported {
      assert Told(s, id);
      var i := NoticeIs(s.sent, id);
      assert s.sent[i].name == s.actors[id].username;
    }
  }

  lemma {:induction false} NoticeIs(sent: seq<Notice>, id: nat) returns (i: nat)
    requires Notices(sent, id) == 1
    ensures i < |sent| && sent[i].id == id
  {
    i := |sent| - 1;
    if sent[i].id != id {
      i := NoticeIs(sent[..i], id);
    }
  }

  /** No peer introduces itself by another name than the one its actor is registered under. */
  ghost predicate TrueNames(events: seq<Event>) {
    forall i :: 0 <= i < |events| && events[i].SetUsername? ==>
      var s := Run(events[..i]);
      events[i].id in s.actors ==> events[i].username == s.actors[events[i].id].name
  }

  /** No actor goes by another name than its own. */
  predicate OwnNames(actors: map<nat, Actor>) {
    forall id :: id in actors ==> actors[id].username == actors[id].name
  }

  lemma StepNames(s: State, e: Event)
    requires OwnNames(s.actors)
    requires e.SetUsername? && e.id in s.actors ==> e.username == s.actors[e.id].name
    ensures OwnNames(Step(s, e).actors)
  {
    hide Admit, RemoveIf, Stopped, Retired, StopEach, Act, OwnNames;
    match e
    case Register(id, name, outbound, limit, protected, spawns) =>
      var r := Admit(s.peers, limit, name, id, protected, spawns);
      MailNames(s.actors, r.evicted);
      MailNames(Stopped(s.actors, r.evicted), r.replaced);
      NewNames(Retired(Stopped(s.actors, r.evicted), r.replaced), id, name, outbound);
    case Remove(name) =>
      if name in s.peers {
        MailNames(s.actors, Some(s.peers[name]));
      }
    case StopAll => AllMailNames(s.actors, s.peers.Values);
    case HandleNotice =>
      if s.handled < |s.sent| {
        MailNames(s.actors, Some(s.sent[s.handled].id));
      }
    case Draw =>
    case _ =>
      if e.id in s.actors {
        ActNames(s, e);
      }
  }

  lemma MailNames(actors: map<nat, Actor>, to: Option<nat>)
    requires OwnNames(actors)
    ensures OwnNames(Stopped(actors, to)) && OwnNames(Retired(actors, to))
  {
  }

  lemma AllMailNames(actors: map<nat, Actor>, to: set<nat>)
    requires OwnNames(actors)
    ensures OwnNames(StopEach(actors, to))
  {
  }

  lemma NewNames(actors: map<nat, Actor>, id: nat, name: string, outbound: bool)
    requires OwnNames(actors)
    ensures OwnNames(actors[id := NewActor(name, outbound)])
  {
  }

  lemma ActNames(s: State, e: Event)
    requires OfActor(e) && e.id in s.actors && OwnNames(s.actors)
    requires e.SetUsername? ==> e.username == s.actors[e.id].name
    ensures OwnNames(Act(s, e).actors)
  {
    ActTouchesOne(s, e);
    OneNames(s.actors, e.id, Act(s, e).actors[e.id]);
    hide Act, OwnNames;
  }

  lemma OneNames(actors: map<nat, Actor>, id: nat, b: Actor)
    requires OwnNames(actors) && id in actors && b.username == b.name
    ensures OwnNames(actors[id := b])
  {
  }

  lemma ActTouchesOne(s: State, e: Event)
    requires OfActor(e) && e.id in s.actors && s.actors[e.id].username == s.actors[e.id].name
    requires e.SetUsername? ==> e.username == s.actors[e.id].name
    ensures e.id in Act(s, e).actors
    ensures var b := Act(s, e).actors[e.id]; Act(s, e).actors == s.actors[e.id := b] && b.username == b.name
  {
    hide Disconnect;
    if e.HandleRetire? {
      RetireTouchesOne(s, e.id);
    } else if e.HandleStop? {
      StopTouchesOne(s, e.id);
    } else if e.Start? || e.Fail? || e.Close? {
      LeavingTouchesOne(s, e);
    }
  }

  lemma LeavingTouchesOne(s: State, e: Event)
    requires (e.Start? || e.Fail? || e.Close?) && e.id in s.actors && s.actors[e.id].username == s.actors[e.id].name
    ensures e.id in Act(s, e).actors
    ensures var b := Act(s, e).actors[e.id]; Act(s, e).actors == s.actors[e.id := b] && b.username == b.name
  {
    hide Disconnect;
    EndTouchesOne(s, e.id);
  }

  lemma RetireTouchesOne(s: State, id: nat)
    requires id in s.actors && s.actors[id].username == s.actors[id].name
    ensures var t := Act(s, HandleRetire(id));
            id in t.actors && t.actors == s.actors[id := t.actors[id]] && t.actors[id].username == t.actors[id].name
  {
    hide Disconnect;
    var noted := s.(actors := s.actors[id := s.actors[id].(retired := true)]);
    EndTouchesOne(noted, id);
  }

  lemma StopTouchesOne(s: State, id: nat)
    requires id in s.actors && s.actors[id].username == s.actors[id].name
    ensures var t := Act(s, HandleStop(id));
            id in t.actors && t.actors == s.actors[id := t.actors[id]] && t.actors[id].username == t.actors[id].name
  {
    hide Disconnect;
    EndTouchesOne(s, id);
  }

  lemma EndTouchesOne(s: State, id: nat)
    requires id in s.actors
    ensures forall outcome ::
              Disconnect(s, id, outcome).actors == s.actors[id := s.actors[id].(phase := Disconnected, reported := true)]
  {
  }

  lemma {:induction false} NamesStay(events: seq<Event>)
    requires TrueNames(events)
    ensures OwnNames(Run(events).actors)
  {
    hide Step, OwnNames;
    if events == [] {
      NobodysName();
    } else {
      var n := |events| - 1;
      var front := events[..n];
      assert forall i :: 0 <= i < n ==> front[..i] == events[..i];
      NamesStay(front);
      StepNames(Run(front), events[n]);
    }
  }

  lemma NobodysName()
    ensures OwnNames(EMPTY.actors)
  {
  }

  /** Where peers go by their own names there are no zombies: once the client has caught up every entry's actor is up. */
  lemma NoZombies(events: seq<Event>)
    requires TrueNames(events) && Run(events).handled == |Run(events).sent|
    ensures var s := Run(events);
            forall name :: name in s.peers ==> s.peers[name] in s.actors && !s.actors[s.peers[name]].reported
  {
    var s := Run(events);
    CaughtUpMeansAlive(events);
    NamesStay(events);
    EveryRunKeeps(events);
    NoticesNamed(MostAllowed(events), s);
    hide Run, Inv, TrueNames;
  }

  lemma NoticesNamed(capacity: nat, s: State)
    requires Inv(capacity, s)
    ensures forall i :: 0 <= i < |s.sent| ==> s.sent[i].id in s.actors && s.actors[s.sent[i].id].username == s.sent[i].name
  {
    hide Entries, EndsAreKnown, Actors, NoneForgotten;
  }

  const MISNAMED: seq<Event> := [
    Draw, Register(1, "a", false, 9, {}, true), Start(1, true), SetUsername(1, "b"), Close(1), HandleNotice]

  lemma RunSnoc(events: seq<Event>, e: Event)
    ensures Run(events + [e]) == Step(Run(events), e)
  {
    assert (events + [e])[..|events|] == events;
  }

  /** The states of that run. */
  const NAMED := NewActor("a", false).(phase := Connected, established := true)
  const GONE := NAMED.(username := "b", phase := Disconnected, reported := true)

  lemma OneEnters(events: seq<Event>)
    requires events == MISNAMED[..3]
    ensures Run(events) == State(map["a" := 1], map[1 := NAMED], 2, {}, [], 0)
  {
    var e1 := [] + [MISNAMED[0]];
    var e2 := e1 + [MISNAMED[1]];
    RunSnoc([], MISNAMED[0]);
    RunSnoc(e1, MISNAMED[1]);
    RunSnoc(e2, MISNAMED[2]);
    assert events == e2 + [MISNAMED[2]];
    hide Run;
    assert Run(e1) == EMPTY.(drawn := {1}, nextId := 2);
    assert Admit(map[], 9, "a", 1, {}, true) == Admission(map["a" := 1], true, None, None);
    assert Run(e2) == State(map["a" := 1], map[1 := NewActor("a", false)], 2, {}, [], 0);
  }

  /** It happens: a peer that gives another name and goes leaves its entry behind, with nobody to remove it. */
  lemma AZombie()
    ensures var s := Run(MISNAMED);
            && s.handled == |s.sent| && "a" in s.peers && s.peers["a"] in s.actors
            && s.actors[s.peers["a"]].reported
  {
    var e5 := MISNAMED[..5];
    ItGoes(e5);
    RunSnoc(e5, MISNAMED[5]);
    assert MISNAMED == e5 + [MISNAMED[5]];
    hide Run, Admit;
    assert Run(MISNAMED) == Run(e5).(handled := 1);
  }

  lemma ItGoes(events: seq<Event>)
    requires events == MISNAMED[..5]
    ensures Run(events) == State(map["a" := 1], map[1 := GONE], 2, {}, [Notice(1, "b", Clean)], 0)
  {
    var e3 := MISNAMED[..3];
    var e4 := e3 + [MISNAMED[3]];
    OneEnters(e3);
    RunSnoc(e3, MISNAMED[3]);
    RunSnoc(e4, MISNAMED[4]);
    assert events == e4 + [MISNAMED[4]];
    hide Run, Admit;
    assert Run(e4) == State(map["a" := 1], map[1 := NAMED.(username := "b")], 2, {}, [], 0);
  }

  /** An actor reports its end once at most, and has reported it by the time it stops. */
  lemma OneNoticeEach(events: seq<Event>, id: nat)
    ensures var s := Run(events);
            && Notices(s.sent, id) <= 1
            && (id in s.actors && !s.actors[id].running ==> Notices(s.sent, id) == 1)
  {
    EveryRunKeeps(events);
    var s := Run(events);
    if id in s.actors {
      assert Told(s, id);
    } else {
      NobodySpoke(s.sent, id);
    }
    hide Run, Notices;
  }

  /** What one step adds to the notices: one at most, blamed on what the actor was then. */
  lemma NoticeOfAStep(s: State, e: Event)
    ensures var t := Step(s, e);
            t.sent == s.sent ||
            (|t.sent| == |s.sent| + 1 &&
             var n := t.sent[|s.sent|];
             && t.sent == s.sent + [n] && n.id in s.actors && n.id in t.actors
             && t.actors[n.id].phase == Disconnected
             && (s.actors[n.id].retired ==> n.outcome == Clean)
             && (n.outcome == Unreachable ==> t.actors[n.id].outbound && !t.actors[n.id].established))
  {
    hide Admit, Stopped, Retired, RemoveIf;
  }

  /** An actor's retirement is for good, and once disconnected it is never established. */
  predicate Onwards(a: Actor, b: Actor) {
    && b.outbound == a.outbound
    && (a.retired ==> b.retired)
    && (a.phase == Disconnected ==> b.phase == Disconnected && b.established == a.established)
  }

  lemma ActorsGoOn(capacity: nat, s: State, e: Event, id: nat)
    requires Inv(capacity, s) && id in s.actors
    ensures id in Step(s, e).actors && Onwards(s.actors[id], Step(s, e).actors[id])
  {
    hide Inv, Step, Onwards, OfActor;
    DrawnIsNobodys(capacity, s, e, id);
    if OfActor(e) {
      MovedGoesOn(s, e, id);
    } else {
      ToldGoesOn(s, e, id);
    }
  }

  lemma DrawnIsNobodys(capacity: nat, s: State, e: Event, id: nat)
    requires Inv(capacity, s) && id in s.actors
    ensures e.Register? && e.id in s.drawn ==> e.id != id
  {
    if e.Register? && e.id in s.drawn {
      NewIsFresh(s, e.id);
    }
  }

  lemma MovedGoesOn(s: State, e: Event, id: nat)
    requires OfActor(e) && id in s.actors
    ensures id in Step(s, e).actors && Onwards(s.actors[id], Step(s, e).actors[id])
  {
    hide Act, Onwards;
    GoesOnAsItIs(s.actors[id]);
    if e.id in s.actors {
      ActGoesOn(s, e, id);
    }
  }

  lemma GoesOnAsItIs(a: Actor)
    ensures Onwards(a, a)
  {
  }

  lemma ToldGoesOn(s: State, e: Event, id: nat)
    requires !OfActor(e) && id in s.actors && (e.Register? && e.id in s.drawn ==> e.id != id)
    ensures id in Step(s, e).actors && Onwards(s.actors[id], Step(s, e).actors[id])
  {
    hide Admit, RemoveIf, Stopped, Retired, StopEach, Onwards;
    GoesOnAsItIs(s.actors[id]);
    match e
    case Register(entering, name, _, limit, protected, spawns) =>
      var r := Admit(s.peers, limit, name, entering, protected, spawns);
      MailGoesOn(s.actors, r.evicted, id);
      MailGoesOn(Stopped(s.actors, r.evicted), r.replaced, id);
      OnwardsTwice(s.actors[id], Stopped(s.actors, r.evicted)[id], Retired(Stopped(s.actors, r.evicted), r.replaced)[id]);
    case Remove(name) =>
      if name in s.peers {
        MailGoesOn(s.actors, Some(s.peers[name]), id);
      }
    case StopAll => AllMailGoesOn(s.actors, s.peers.Values, id);
    case HandleNotice =>
      if s.handled < |s.sent| {
        MailGoesOn(s.actors, Some(s.sent[s.handled].id), id);
      }
    case _ =>
  }

  lemma MailGoesOn(actors: map<nat, Actor>, to: Option<nat>, id: nat)
    requires id in actors
    ensures id in Stopped(actors, to) && Onwards(actors[id], Stopped(actors, to)[id])
    ensures id in Retired(actors, to) && Onwards(actors[id], Retired(actors, to)[id])
  {
  }

  lemma AllMailGoesOn(actors: map<nat, Actor>, to: set<nat>, id: nat)
    requires id in actors
    ensures id in StopEach(actors, to) && Onwards(actors[id], StopEach(actors, to)[id])
  {
  }

  lemma OnwardsTwice(a: Actor, b: Actor, c: Actor)
    requires Onwards(a, b) && Onwards(b, c)
    ensures Onwards(a, c)
  {
  }

  lemma ActGoesOn(s: State, e: Event, id: nat)
    requires OfActor(e) && e.id in s.actors && id in s.actors
    ensures id in Act(s, e).actors && Onwards(s.actors[id], Act(s, e).actors[id])
  {
    hide Disconnect;
    forall outcome
      ensures id in Disconnect(s, e.id, outcome).actors && e.id in Disconnect(s, e.id, outcome).actors
      ensures Onwards(s.actors[id], Disconnect(s, e.id, outcome).actors[id])
      ensures Disconnect(s, e.id, outcome).actors[e.id].phase == Disconnected
    {
      EndGoesOn(s, e.id, outcome, id);
    }
    match e
    case HandleRetire(who) => RetireGoesOn(s, who, id);
    case _ =>
  }

  lemma EndGoesOn(s: State, who: nat, outcome: Outcome, id: nat)
    requires who in s.actors && id in s.actors
    ensures var t := Disconnect(s, who, outcome);
            && id in t.actors && Onwards(s.actors[id], t.actors[id])
            && who in t.actors && t.actors[who].phase == Disconnected
  {
  }

  lemma RetireGoesOn(s: State, who: nat, id: nat)
    requires who in s.actors && id in s.actors
    ensures var t := Act(s, HandleRetire(who)); id in t.actors && Onwards(s.actors[id], t.actors[id])
  {
    EndGoesOn(s.(actors := s.actors[who := s.actors[who].(retired := true)]), who, Clean, id);
    hide Disconnect;
  }

  /** Whatever happens after an actor has noted its retirement, it is never reported lost or unreachable. */
  lemma {:induction false} RetiredEndsClean(events: seq<Event>, more: seq<Event>, id: nat)
    requires id in Run(events).actors && Run(events).actors[id].retired
    ensures var s, t := Run(events), Run(events + more);
            && id in t.actors && t.actors[id].retired
            && s.sent <= t.sent
            && forall i :: |s.sent| <= i < |t.sent| && t.sent[i].id == id ==> t.sent[i].outcome == Clean
  {
    hide Step, Inv, Onwards;
    if more == [] {
      assert events + more == events;
    } else {
      var front, e := more[..|more| - 1], more[|more| - 1];
      RetiredEndsClean(events, front, id);
      assert (events + more)[..|events + more| - 1] == events + front;
      EveryRunKeeps(events + front);
      var t := Run(events + front);
      ActorsGoOn(MostAllowed(events + front), t, e, id);
      StaysRetired(t.actors[id], Step(t, e).actors[id]);
      NoticeOfAStep(t, e);
    }
  }

  lemma StaysRetired(a: Actor, b: Actor)
    requires Onwards(a, b) && a.retired
    ensures b.retired
  {
  }

  /** In every run, whoever was reported unreachable had dialled and never got through. */
  lemma {:induction false} UnreachableNeverGotThrough(events: seq<Event>)
    ensures var s := Run(events);
            forall i :: 0 <= i < |s.sent| ==>
              && s.sent[i].id in s.actors && s.actors[s.sent[i].id].phase == Disconnected
              && (s.sent[i].outcome == Unreachable ==>
                    s.actors[s.sent[i].id].outbound && !s.actors[s.sent[i].id].established)
  {
    if events != [] {
      var front, e := events[..|events| - 1], events[|events| - 1];
      UnreachableNeverGotThrough(front);
      EveryRunKeeps(front);
      forall i | 0 <= i < |Run(front).sent|
        ensures Run(front).sent[i].id in Step(Run(front), e).actors
        ensures Onwards(Run(front).actors[Run(front).sent[i].id], Step(Run(front), e).actors[Run(front).sent[i].id])
      {
        ActorsGoOn(MostAllowed(front), Run(front), e, Run(front).sent[i].id);
      }
      NoticeOfAStep(Run(front), e);
    }
    hide Step, Inv;
  }

  /** The steps by which an actor that was told to go does. */
  ghost function Farewell(s: State, id: nat): State {
    var started := Step(s, Start(id, true));
    var noted := Step(started, HandleRetire(id));
    var up := Step(noted, Establish(id));
    var closed := Step(up, Close(id));
    Step(Step(closed, Tick(id)), HandleStop(id))
  }

  /** No actor leaks: one the registry no longer holds can end by its own steps, and has then reported. */
  lemma NobodyLingers(events: seq<Event>, id: nat)
    requires var s := Run(events); id in s.actors && s.actors[id].running && id !in s.peers.Values
    ensures var t := Farewell(Run(events), id);
            id in t.actors && !t.actors[id].running && t.actors[id].reported && Notices(t.sent, id) == 1
  {
    var s := Run(events);
    EveryRunKeeps(events);
    ToldToGo(s, id);
    Leaves(s, id);
    FarewellKeeps(MostAllowed(events), s, id);
    var t := Farewell(s, id);
    assert Told(t, id);
    hide Run, Notices, Farewell;
  }

  lemma ToldToGo(s: State, id: nat)
    requires NoneForgotten(s) && id in s.actors && s.actors[id].running && id !in s.peers.Values
    ensures s.actors[id].stopSent || s.actors[id].retireSent
  {
  }

  lemma FarewellKeeps(capacity: nat, s: State, id: nat)
    requires Inv(capacity, s)
    ensures Inv(capacity, Farewell(s, id))
  {
    hide Inv, Step;
    var s1 := Step(s, Start(id, true));
    StepKeeps(capacity, s, Start(id, true));
    var s2 := Step(s1, HandleRetire(id));
    StepKeeps(capacity, s1, HandleRetire(id));
    var s3 := Step(s2, Establish(id));
    StepKeeps(capacity, s2, Establish(id));
    var s4 := Step(s3, Close(id));
    StepKeeps(capacity, s3, Close(id));
    var s5 := Step(s4, Tick(id));
    StepKeeps(capacity, s4, Tick(id));
    StepKeeps(capacity, s5, HandleStop(id));
  }

  predicate Going(s: State, id: nat) {
    id in s.actors && s.actors[id].running && (s.actors[id].stopSent || s.actors[id].retireSent)
  }

  lemma Leaves(s: State, id: nat)
    requires Going(s, id)
    ensures var t := Farewell(s, id); id in t.actors && !t.actors[id].running && t.actors[id].reported
  {
    hide Step, Going;
    var s1 := Step(s, Start(id, true));
    StartGoes(s, id);
    var s2 := Step(s1, HandleRetire(id));
    NotingGoes(s1, id);
    var s3 := Step(s2, Establish(id));
    UpGoes(s2, id);
    var s4 := Step(s3, Close(id));
    CloseGoes(s3, id);
    var s5 := Step(s4, Tick(id));
    TickGoes(s4, id);
    StopGoes(s5, id);
  }

  lemma StartGoes(s: State, id: nat)
    requires Going(s, id)
    ensures var t := Step(s, Start(id, true)); Going(t, id) && t.actors[id].phase != Fresh
  {
  }

  predicate Noted(s: State, id: nat)
    requires id in s.actors
  {
    s.actors[id].stopSent || s.actors[id].retired
  }

  lemma NotingGoes(s: State, id: nat)
    requires Going(s, id) && s.actors[id].phase != Fresh
    ensures var t := Step(s, HandleRetire(id)); Going(t, id) && t.actors[id].phase != Fresh && Noted(t, id)
  {
  }

  lemma UpGoes(s: State, id: nat)
    requires Going(s, id) && s.actors[id].phase != Fresh && Noted(s, id)
    ensures var t := Step(s, Establish(id));
            Going(t, id) && (t.actors[id].phase == Connected || t.actors[id].phase == Disconnected) && Noted(t, id)
  {
  }

  lemma CloseGoes(s: State, id: nat)
    requires Going(s, id) && (s.actors[id].phase == Connected || s.actors[id].phase == Disconnected) && Noted(s, id)
    ensures var t := Step(s, Close(id));
            Going(t, id) && t.actors[id].phase == Disconnected && Noted(t, id)
  {
  }

  lemma TickGoes(s: State, id: nat)
    requires Going(s, id) && s.actors[id].phase == Disconnected && Noted(s, id)
    ensures var t := Step(s, Tick(id)); Going(t, id) && t.actors[id].phase == Disconnected && t.actors[id].stopSent
  {
  }

  lemma StopGoes(s: State, id: nat)
    requires Going(s, id) && s.actors[id].phase == Disconnected && s.actors[id].stopSent
    ensures var t := Step(s, HandleStop(id));
            id in t.actors && !t.actors[id].running && t.actors[id].reported
  {
  }
}
