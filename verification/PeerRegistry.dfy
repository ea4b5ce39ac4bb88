/**
 The registry and a peer actor as they run: the map of who holds each username,
 changed in place under its lock, and the actor's guards on its way out.
 */
module PeerRegistry {
  import opened Wrappers
  import opened RegistrySpec

  /** An actor's handle: what has been put in its mailbox. */
  class Mailbox {
    const id: nat
    var stopSent: bool
    var retireSent: bool

    constructor (id: nat)
      ensures this.id == id && !stopSent && !retireSent
    {
      this.id, stopSent, retireSent := id, false, false;
    }

    method Stop()
      modifies this`stopSent
      ensures stopSent
    {
      stopSent := true;
    }

    method SendRetire()
      modifies this`retireSent
      ensures retireSent
    {
      retireSent := true;
    }
  }

  ghost function IdsOf(peers: map<string, Mailbox>): Peers {
    map name | name in peers :: peers[name].id
  }

  ghost predicate ValidMap(peers: map<string, Mailbox>, nextId: nat) {
    && (forall name :: name in peers ==> peers[name].id < nextId)
    && (forall a, b :: a in peers && b in peers && peers[a].id == peers[b].id ==> a == b)
  }

  lemma Without(peers: map<string, Mailbox>, nextId: nat, name: string)
    requires ValidMap(peers, nextId)
    ensures ValidMap(peers - {name}, nextId) && IdsOf(peers - {name}) == IdsOf(peers) - {name}
  {
  }

  lemma With(peers: map<string, Mailbox>, nextId: nat, name: string, m: Mailbox)
    requires ValidMap(peers, nextId) && m.id < nextId && forall other :: other in peers ==> peers[other].id != m.id
    ensures ValidMap(peers[name := m], nextId) && IdsOf(peers[name := m]) == IdsOf(peers)[name := m.id]
  {
  }

  lemma VictimIn(peers: map<string, Mailbox>, protected: set<string>)
    ensures var v := Victim(IdsOf(peers), protected); v.Some? ==> v.value in peers
  {
  }

  lemma IdsAre(peers: map<string, Mailbox>, nextId: nat)
    requires ValidMap(peers, nextId)
    ensures OneOwner(IdsOf(peers)) && IdsOf(peers).Keys == peers.Keys && |IdsOf(peers)| == |peers|
    ensures forall name :: name in peers ==> IdsOf(peers)[name] == peers[name].id
  {
    assert IdsOf(peers).Keys == peers.Keys;
    SameSize(IdsOf(peers), peers);
  }

  lemma SameSize<A, B>(a: map<string, A>, b: map<string, B>)
    requires a.Keys == b.Keys
    ensures |a| == |b|
  {
    assert |a| == |a.Keys| && |b| == |b.Keys|;
  }

  class PeerRegistry {
    var capacity: nat
    var peers: map<string, Mailbox>
    var nextId: nat

    ghost function Ids(): Peers
      reads this
    {
      IdsOf(peers)
    }

    ghost predicate Valid()
      reads this
    {
      ValidMap(peers, nextId)
    }

    constructor (capacity: nat)
      ensures Valid() && peers == map[] && nextId == 1 && this.capacity == capacity
    {
      this.capacity, peers, nextId := capacity, map[], 1;
    }

    /** The shared limit, read afresh by every registration. */
    method SetCapacity(limit: nat)
      requires Valid()
      modifies this`capacity
      ensures Valid() && capacity == limit
    {
      capacity := limit;
    }

    /** Scans the whole map for the unprotected peer with the least id. */
    method OldestIdle(protected: set<string>) returns (victim: Option<string>)
      requires Valid()
      ensures victim == Victim(Ids(), protected)
    {
      var todo := peers.Keys;
      victim := None;
      while todo != {}
        invariant todo <= peers.Keys
        invariant victim.Some? ==> victim.value in peers && victim.value !in protected && victim.value !in todo
        invariant forall name :: name in peers && name !in todo && name !in protected ==>
                    victim.Some? && peers[victim.value].id <= peers[name].id
        decreases |todo|
      {
        var name :| name in todo;
        todo := todo - {name};
        if name !in protected && (victim.None? || peers[name].id < peers[victim.value].id) {
          victim := Some(name);
        }
      }
      IdsAre(peers, nextId);
      if victim.Some? {
        assert IsVictim(Ids(), protected, victim.value);
        VictimIsUnique(Ids(), protected, victim.value);
      } else {
        VictimIn(peers, protected);
      }
    }

    /** The id a registration takes before it has the lock; nobody else ever gets it. */
    method DrawId() returns (id: nat)
      requires Valid()
      modifies this`nextId
      ensures Valid() && id == old(nextId) && nextId == id + 1
      ensures forall name :: name in peers ==> peers[name].id != id
    {
      id := nextId;
      nextId := nextId + 1;
    }

    /**
     A peer that dies at once finds its entry already there: the entry is inserted
     under the lock its eviction will need. A full map gives up the unprotected
     peer with the least id first; a predecessor under the same name is retired, not stopped.
     */
    method RegisterPeerProtected(id: nat, name: string, protected: set<string>, spawns: bool)
      returns (handle: Option<Mailbox>)
      requires Valid() && id < nextId && forall other :: other in peers ==> peers[other].id != id
      modifies this`peers, peers.Values
      ensures Valid()
      ensures var a := Admit(old(Ids()), capacity, name, id, protected, spawns);
              && Ids() == a.peers
              && (handle.Some? <==> a.admitted)
              && (handle.Some? ==> fresh(handle.value) && name in peers && handle == Some(peers[name]))
              && (forall other :: other in old(peers) ==>
                    var m := old(peers)[other];
                    && m.stopSent == (old(m.stopSent) || a.evicted == Some(m.id))
                    && m.retireSent == (old(m.retireSent) || a.replaced == Some(m.id)))
    {
      hide ValidMap, IdsOf, Victim, IsVictim;
      IdsAre(peers, nextId);
      handle := None;
      var limit := if capacity > 1 then capacity else 1;
      if |peers| >= limit && name !in peers {
        var victim := OldestIdle(protected);
        if victim.None? {
          return;
        }
        VictimIn(peers, protected);
        Without(peers, nextId, victim.value);
        peers[victim.value].Stop();
        peers := peers - {victim.value};
      }
      if !spawns {
        return;
      }
      var m := new Mailbox(id);
      if name in peers {
        peers[name].SendRetire();
      }
      With(peers, nextId, name, m);
      peers := peers[name := m];
      handle := Some(m);
    }

    /** Compares the id under the lock, so that a namesake's entry stays. */
    method RemovePeerIf(name: string, id: nat) returns (handle: Option<Mailbox>)
      requires Valid()
      modifies this`peers
      ensures Valid() && Ids() == RemoveIf(old(Ids()), name, id)
      ensures handle.Some? <==> name in old(peers) && old(peers)[name].id == id
      ensures handle.Some? ==> handle == Some(old(peers)[name])
    {
      hide ValidMap, IdsOf;
      IdsAre(peers, nextId);
      Without(peers, nextId, name);
      handle := None;
      if name in peers && peers[name].id == id {
        handle := Some(peers[name]);
        peers := peers - {name};
      }
    }

    method RemovePeer(name: string) returns (handle: Option<Mailbox>)
      requires Valid()
      modifies this`peers
      ensures Valid() && Ids() == old(Ids()) - {name}
      ensures handle == if name in old(peers) then Some(old(peers)[name]) else None
    {
      Without(peers, nextId, name);
      hide ValidMap, IdsOf;
      handle := if name in peers then Some(peers[name]) else None;
      peers := peers - {name};
    }

    /** Every peer that was registered is told to stop, and nobody else. */
    method StopAll()
      requires Valid()
      modifies this`peers, peers.Values`stopSent
      ensures Valid() && peers == map[]
      ensures forall m :: m in old(peers.Values) ==> m.stopSent
    {
      var handles := peers.Values;
      peers := map[];
      var todo := handles;
      while todo != {}
        invariant todo <= handles && peers == map[]
        invariant forall m :: m in handles && m !in todo ==> m.stopSent
        decreases |todo|
      {
        var m :| m in todo;
        m.Stop();
        todo := todo - {m};
      }
    }

    /** The client loop on a terminal notice. */
    method OnNotice(notice: Notice)
      requires Valid()
      modifies this`peers, peers.Values`stopSent
      ensures Valid() && Ids() == RemoveIf(old(Ids()), notice.name, notice.id)
      ensures forall name :: name in old(peers) ==>
                var m := old(peers)[name];
                m.stopSent == (old(m.stopSent) || (name == notice.name && m.id == notice.id))
    {
      var handle := RemovePeerIf(notice.name, notice.id);
      if handle.Some? {
        handle.value.Stop();
      }
    }
  }

  // ---- The actor's side ----

  /** The client's operation channel. */
  class Channel {
    var sent: seq<Notice>

    constructor ()
      ensures sent == []
    {
      sent := [];
    }
  }

  class PeerActor {
    const id: nat
    const name: string
    const outbound: bool
    const channel: Channel
    const mailbox: Mailbox
    var username: string
    var phase: Phase
    var established: bool
    var retired: bool
    var disconnectReported: bool
    /** The name on its notice, once it has given one. */
    ghost var signed: string

    constructor (id: nat, name: string, outbound: bool, channel: Channel, mailbox: Mailbox)
      ensures this.id == id && this.name == name && username == name && this.outbound == outbound
      ensures this.channel == channel && this.mailbox == mailbox
      ensures phase == Fresh && !established && !retired && !disconnectReported
    {
      this.id, this.name, this.outbound, this.channel, this.mailbox := id, name, outbound, channel, mailbox;
      username, phase, established, retired, disconnectReported := name, Fresh, false, false, false;
      signed := name;
    }

    /** This actor as the state machine has it, its thread running. */
    ghost function View(): Actor
      reads this, mailbox
    {
      Actor(name, if disconnectReported then signed else username, outbound, phase, established,
            mailbox.retireSent, retired, mailbox.stopSent, disconnectReported, true)
    }

    /** The machine's state with this actor alone in it, and what its channel has heard. */
    ghost function Alone(): State
      reads this, mailbox, channel
    {
      State(map[], map[id := View()], id + 1, {}, channel.sent, 0)
    }

    method Disconnect()
      modifies this`phase, this`disconnectReported, this`signed, channel
      ensures Alone() == RegistrySpec.Disconnect(old(Alone()), id, Clean)
    {
      phase := Disconnected;
      if disconnectReported {
        return;
      }
      disconnectReported, signed := true, username;
      channel.sent := channel.sent + [Notice(id, username, Clean)];
    }

    method DisconnectWithError()
      modifies this`phase, this`disconnectReported, this`signed, channel
      ensures Alone() == RegistrySpec.DisconnectWithError(old(Alone()), id)
    {
      if retired {
        Disconnect();
        return;
      }
      phase := Disconnected;
      if disconnectReported {
        return;
      }
      disconnectReported, signed := true, username;
      var outcome := if outbound && !established then Unreachable else Lost;
      channel.sent := channel.sent + [Notice(id, username, outcome)];
    }

    /** Ends a dial under way; an open connection only notes that it is retired. */
    method OnRetire()
      requires phase != Fresh && mailbox.retireSent && !retired
      modifies this`phase, this`disconnectReported, this`signed, this`retired, channel
      ensures Alone() == Act(old(Alone()), HandleRetire(id))
    {
      retired := true;
      if phase == Connecting {
        Disconnect();
      }
    }

    /** The peer has introduced itself. */
    method OnSetUsername(introduced: string)
      modifies this`username
      ensures Alone() == Act(old(Alone()), SetUsername(id, introduced))
    {
      username := introduced;
    }

    /** A retired actor that has disconnected puts the stop in its own mailbox: no one else will. */
    method OnTick()
      modifies mailbox`stopSent
      ensures Alone() == Act(old(Alone()), Tick(id))
    {
      if phase == Disconnected && retired {
        mailbox.Stop();
      }
    }
  }
}
