/**
 What the leaf makes of what its links say: over every run, a candidate's place is
 the last one its own link told, the branch is the parent's place and one more, and
 the first search of a placed candidate adopts it.
 */
module LeafTold {
  import opened Basics
  import opened Wrappers
  import opened LeafSpec

  /** The level this link told last while it was live: none after a negative one. */
  function LevelTold(own: string, events: seq<Event>, u: string, link: nat): Option<nat> {
    if events == [] then None
    else
      var front, e := events[..|events| - 1], events[|events| - 1];
      if e.Levelled? && e.username == u && e.link == link && HasLink(Run(own, front), u, link)
      then (if e.level < 0 then None else Some(e.level))
      else LevelTold(own, front, u, link)
  }

  /** The root this link told last while it was live: its own name, if it said level 0 since. */
  function RootTold(own: string, events: seq<Event>, u: string, link: nat): Option<string> {
    if events == [] then None
    else
      var front, e := events[..|events| - 1], events[|events| - 1];
      if e.Rooted? && e.username == u && e.link == link && HasLink(Run(own, front), u, link) then Some(e.root)
      else if e.Levelled? && e.username == u && e.link == link && e.level == 0 && HasLink(Run(own, front), u, link)
      then Some(u)
      else RootTold(own, front, u, link)
  }

  lemma {:induction false} NewLinksAreSilent(own: string, events: seq<Event>, u: string, link: nat)
    requires AllValid(events) && link >= Run(own, events).nextLink
    ensures LevelTold(own, events, u, link) == None && RootTold(own, events, u, link) == None
  {
    if events != [] {
      var front, e := events[..|events| - 1], events[|events| - 1];
      EveryRunKeeps(own, front);
      LinksGrow(Run(own, front), e);
      NewLinksAreSilent(own, front, u, link);
      NotLiveYet(Run(own, front), u, link);
    }
    hide Step, Inv;
  }

  lemma NotLiveYet(v: View, u: string, link: nat)
    requires Inv(v)
    ensures link >= v.nextLink ==> !HasLink(v, u, link)
  {
    hide PlaceKnown, NothingLost, MovesSpaced;
  }

  lemma LinksGrow(v: View, e: Event)
    ensures Step(v, e).0.nextLink >= v.nextLink
  {
    if e.Considering? && v.parent.None? {
      IssuedAre(v, Dialled(e.offers, v.candidates.Keys));
    }
  }

  /** New candidates have new links and have said nothing; the others are as they were. */
  lemma {:induction false} IssuedAre(v: View, dials: seq<Offer>)
    ensures var w := Issue(v, dials);
            && w.nextLink == v.nextLink + |dials|
            && (forall u :: u in w.candidates ==>
                  || (u in v.candidates && w.candidates[u] == v.candidates[u])
                  || (v.nextLink <= w.candidates[u].link && w.candidates[u].level == None && w.candidates[u].root == None))
    decreases |dials|
  {
    if dials != [] {
      IssuedAre(v.(candidates := v.candidates[dials[0].username := Candidate(v.nextLink, None, None)],
                   nextLink := v.nextLink + 1), dials[1..]);
    }
  }

  /** What is kept of a candidate after one event of the run. */
  lemma KeptStep(v: View, e: Event, u: string)
    requires Inv(v) && u in Step(v, e).0.candidates
    ensures var c := Step(v, e).0.candidates[u];
            if u in v.candidates && c.link == v.candidates[u].link then
              var b := v.candidates[u];
              && c.level == (if e.Levelled? && e.username == u && e.link == b.link
                             then (if e.level < 0 then None else Some(e.level)) else b.level)
              && c.root == (if e.Rooted? && e.username == u && e.link == b.link then Some(e.root)
                            else if e.Levelled? && e.username == u && e.link == b.link && e.level == 0 then Some(u)
                            else b.root)
            else c.link >= v.nextLink && c.level == None && c.root == None
  {
    hide Inv, Consider;
    if e.Considering? {
      ConsideredKept(v, e.offers, u);
    } else if e.Levelled? || e.Rooted? {
      SaidKept(v, e, u);
    }
  }

  lemma MovedKeeps(v: View, u: string, now: nat)
    requires u in v.candidates
    ensures MovedWithParent(v, u, now).0.candidates == v.candidates
  {
  }

  lemma SaidKept(v: View, e: Event, u: string)
    requires (e.Levelled? || e.Rooted?) && u in Step(v, e).0.candidates
    ensures u in v.candidates && Step(v, e).0.candidates[u].link == v.candidates[u].link
    ensures var b, c := v.candidates[u], Step(v, e).0.candidates[u];
            var said := e.username == u && e.link == b.link;
            && c.level == (if e.Levelled? && said then (if e.level < 0 then None else Some(e.level)) else b.level)
            && c.root == (if e.Rooted? && said then Some(e.root)
                          else if e.Levelled? && said && e.level == 0 then Some(u) else b.root)
  {
    hide MovedWithParent;
    if HasLink(v, e.username, e.link) {
      var c := v.candidates[e.username];
      if e.Levelled? {
        var c' := c.(level := if e.level >= 0 then Some(e.level) else None);
        var c'' := if e.level == 0 then c'.(root := Some(e.username)) else c';
        MovedKeeps(v.(candidates := v.candidates[e.username := c'']), e.username, e.now);
      } else {
        MovedKeeps(v.(candidates := v.candidates[e.username := c.(root := Some(e.root))]), e.username, e.now);
      }
    }
  }

  lemma ConsideredKept(v: View, offers: seq<Offer>, u: string)
    requires Inv(v) && u in Consider(v, offers).candidates
    ensures var c := Consider(v, offers).candidates[u];
            if u in v.candidates && c.link == v.candidates[u].link then c == v.candidates[u]
            else c.link >= v.nextLink && c.level == None && c.root == None
  {
    hide Inv, Issue, Dialled;
    if v.parent.None? {
      IssuedAre(v, Dialled(offers, v.candidates.Keys));
      NotLiveYet(v, u, Consider(v, offers).candidates[u].link);
    } else {
      NotLiveYet(v, u, v.candidates[u].link);
    }
  }

  /** Over every run, a candidate's level and root are what its own link told last. */
  lemma {:induction false} ToldIsKept(own: string, events: seq<Event>, u: string)
    requires AllValid(events) && u in Run(own, events).candidates
    ensures var c := Run(own, events).candidates[u];
            c.level == LevelTold(own, events, u, c.link) && c.root == RootTold(own, events, u, c.link)
  {
    hide Step, Inv;
    if events != [] {
      var front, e := events[..|events| - 1], events[|events| - 1];
      var v, c := Run(own, front), Run(own, events).candidates[u];
      EveryRunKeeps(own, front);
      KeptStep(v, e, u);
      if u in v.candidates && c.link == v.candidates[u].link {
        ToldIsKept(own, front, u);
      } else {
        NotLiveYet(v, u, c.link);
        NewLinksAreSilent(own, front, u, c.link);
      }
    }
  }

  /**
   Over every run the branch is our own name at level 0 without a parent. With one, the
   parent is the only candidate, and as soon as its link has told a root and a level
   that is not negative, the branch is that root one level down.
   */
  lemma BranchIsWhatTheParentTold(own: string, events: seq<Event>)
    requires AllValid(events)
    ensures var v := Run(own, events);
            && (v.parent.None? ==> v.branch == Branch(own, 0))
            && (v.parent.Some? ==>
                  && v.candidates.Keys == {v.parent.value}
                  && var p := v.parent.value;
                     var link := v.candidates[p].link;
                     var level, root := LevelTold(own, events, p, link), RootTold(own, events, p, link);
                     level.Some? && root.Some? ==> v.branch == Branch(root.value, level.value + 1))
  {
    BranchFollowsParent(own, events);
    var v := Run(own, events);
    if v.parent.Some? {
      ToldIsKept(own, events, v.parent.value);
    }
    hide Run, LevelTold, RootTold;
  }

  lemma RunOneMore(own: string, events: seq<Event>, e: Event)
    ensures Run(own, events + [e]) == Step(Run(own, events), e).0
  {
    assert (events + [e])[..|events|] == events;
  }

  /**
   A search from a live candidate adopts it exactly when there is no parent and its
   link has told a root and a level: it becomes the parent and the only candidate, the
   links of all others are cancelled, and the server is told the branch at once.
   Any other search changes nothing.
   */
  lemma AdoptedExactlyWhen(own: string, events: seq<Event>, u: string, link: nat)
    requires AllValid(events)
    ensures var v := Run(own, events);
            var (w, notice) := Step(v, Searched(u, link));
            var level, root := LevelTold(own, events, u, link), RootTold(own, events, u, link);
            if v.parent.None? && u in v.candidates && v.candidates[u].link == link && level.Some? && root.Some? then
              var branch := Branch(root.value, level.value + 1);
              && w.parent == Some(u) && w.candidates == map[u := v.candidates[u]] && w.branch == branch
              && notice == Some(Notice(branch, true))
              && (forall other :: other in v.candidates && other != u ==> v.candidates[other].link in w.cancelled)
              && (forall l :: l in w.cancelled ==>
                    l in v.cancelled || exists other :: other in v.candidates && other != u && v.candidates[other].link == l)
              && w.closed == v.closed && w.nextLink == v.nextLink && w.movePending == v.movePending && w.moved == v.moved
            else w == v && notice == None
  {
    hide Run, LevelTold, RootTold, Inv, SearchFrom;
    EveryRunKeeps(own, events);
    var v := Run(own, events);
    if u in v.candidates {
      ToldIsKept(own, events, u);
    }
    AdoptionIs(v, u, link);
  }

  lemma AdoptionIs(v: View, u: string, link: nat)
    requires Inv(v)
    ensures var (w, notice) := SearchFrom(v, u, link);
            if v.parent.None? && HasLink(v, u, link) && v.candidates[u].level.Some? && v.candidates[u].root.Some? then
              var branch := Branch(v.candidates[u].root.value, v.candidates[u].level.value + 1);
              && w.parent == Some(u) && w.candidates == map[u := v.candidates[u]] && w.branch == branch
              && notice == Some(Notice(branch, true))
              && (forall other :: other in v.candidates && other != u ==> v.candidates[other].link in w.cancelled)
              && (forall l :: l in w.cancelled ==>
                    l in v.cancelled || exists other :: other in v.candidates && other != u && v.candidates[other].link == l)
              && w.closed == v.closed && w.nextLink == v.nextLink && w.movePending == v.movePending && w.moved == v.moved
            else w == v && notice == None
  {
    hide LinksAccounted, NothingLost, MovesSpaced;
    if v.parent.None? && HasLink(v, u, link) && Under(v.candidates[u]).Some? {
      var others := v.candidates - {u};
      assert forall other :: other in others ==> others[other] == v.candidates[other];
    }
  }

  /**
   When the parent's link tells a place that moves us, the server is told at once if it
   was not told of a move within the last second; otherwise the move waits. Nothing
   else a link tells is told on.
   */
  lemma MovesAreTold(own: string, events: seq<Event>, e: Event)
    requires AllValid(events) && e.Valid() && (e.Levelled? || e.Rooted?)
    ensures var v := Run(own, events);
            var (w, notice) := Step(v, e);
            var moves := w.branch != v.branch;
            && w.parent == v.parent
            && (moves ==> v.parent == Some(e.username) && HasLink(v, e.username, e.link))
            && (notice.Some? <==> moves && (v.moved.None? || e.now >= v.moved.value + 1_000_000_000))
            && (notice.Some? ==> notice == Some(Notice(w.branch, true)) && w.moved == Some(e.now) && !w.movePending)
            && (notice.None? ==> w.moved == v.moved && (w.movePending <==> v.movePending || moves))
            && w.candidates.Keys == v.candidates.Keys && w.cancelled == v.cancelled && w.closed == v.closed
            && w.nextLink == v.nextLink
  {
    hide Run;
  }

  /**
   A live link that closes takes its candidate away, and no other; if that was the
   parent we are a root again, and the server is told. A link that is not live does
   nothing.
   */
  lemma ClosedIsGone(v: View, u: string, link: nat)
    ensures var (w, notice) := Step(v, Closing(u, link));
            var live := u in v.candidates && v.candidates[u].link == link;
            && (!live ==> w == v && notice == None)
            && (live ==>
                  && w.candidates.Keys == v.candidates.Keys - {u} && w.closed == v.closed + {link}
                  && (forall other :: other in w.candidates ==> w.candidates[other] == v.candidates[other])
                  && w.cancelled == v.cancelled && w.movePending == v.movePending && w.moved == v.moved
                  && (if v.parent == Some(u)
                      then w.parent == None && w.branch == Branch(v.own, 0) && notice == Some(Notice(w.branch, false))
                      else w.parent == v.parent && w.branch == v.branch && notice == None))
  {
  }

  /** A new login cancels every link and leaves us a root, as the server is told; a move that was waiting waits on. */
  lemma ResetIsAFreshStart(v: View, u: string)
    ensures var (w, notice) := Step(v, Resetting);
            && w.parent == None && w.candidates == map[] && w.branch == Branch(v.own, 0)
            && notice == Some(Notice(Branch(v.own, 0), false))
            && (u in v.candidates ==> v.candidates[u].link in w.cancelled)
            && w.closed == v.closed && w.nextLink == v.nextLink && w.movePending == v.movePending && w.moved == v.moved
  {
  }

  /** A sweep tells a waiting move a second after the last one, and does nothing else. */
  lemma SweepIs(v: View, now: nat)
    ensures var (w, notice) := Step(v, Sweeping(now));
            var due := v.movePending && (v.moved.None? || now >= v.moved.value + 1_000_000_000);
            && (notice.Some? <==> due)
            && (due ==> !w.movePending && w.moved == Some(now) && notice.value.branch == v.branch)
            && (!due ==> w == v)
            && w.parent == v.parent && w.branch == v.branch && w.candidates == v.candidates
  {
  }

  /** The first offers are dialled, each that is not known, once, until there are ten; all of them, if there are not. */
  lemma {:induction false} DialledAre(offers: seq<Offer>, known: set<string>)
    requires |known| <= 10
    ensures DialsWell(offers, known, Dialled(offers, known))
  {
    hide UpTo;
    if offers == [] || |known| == 10 {
      NoneDialled(offers, known);
      assert UpTo(offers, known, [], 0);
    } else if offers[0].username !in known {
      var more := known + {offers[0].username};
      DialledAre(offers[1..], more);
      DialsOne(offers, known, Dialled(offers[1..], more));
    } else {
      DialledAre(offers[1..], known);
      DialsNot(offers, known, Dialled(offers, known));
    }
  }

  ghost predicate DialsWell(offers: seq<Offer>, known: set<string>, d: seq<Offer>) {
    && (forall i :: 0 <= i < |d| ==> d[i] in offers && d[i].username !in known)
    && (forall i, j :: 0 <= i < j < |d| ==> d[i].username != d[j].username)
    && |known| + |d| <= 10
    && exists cut: nat :: UpTo(offers, known, d, cut)
  }

  /** Those dialled are of the first `cut` offers, of which no one is left out; of the others only if there are ten. */
  ghost predicate UpTo(offers: seq<Offer>, known: set<string>, d: seq<Offer>, cut: nat) {
    && cut <= |offers|
    && (forall o :: o in d ==> o in offers[..cut])
    && (forall o :: o in offers[..cut] ==> o.username in known || o.username in Names(d))
    && (cut < |offers| ==> |known| + |d| == 10)
  }

  function Names(d: seq<Offer>): set<string> {
    set o | o in d :: o.username
  }

  lemma NoneDialled(offers: seq<Offer>, known: set<string>)
    requires offers == [] || |known| == 10
    ensures Dialled(offers, known) == [] && (|known| <= 10 ==> UpTo(offers, known, [], 0))
  {
  }

  lemma DialsOne(offers: seq<Offer>, known: set<string>, rest: seq<Offer>)
    requires offers != [] && offers[0].username !in known
    requires DialsWell(offers[1..], known + {offers[0].username}, rest)
    ensures DialsWell(offers, known, [offers[0]] + rest)
  {
    var d := [offers[0]] + rest;
    var cut: nat :| UpTo(offers[1..], known + {offers[0].username}, rest, cut);
    CutOne(offers, known, rest, cut);
    hide UpTo, Names;
    assert forall i :: 0 < i < |d| ==> d[i] == rest[i - 1];
    assert offers[0] in offers && forall o :: o in offers[1..] ==> o in offers;
  }

  lemma CutOne(offers: seq<Offer>, known: set<string>, rest: seq<Offer>, cut: nat)
    requires offers != [] && offers[0].username !in known
    requires UpTo(offers[1..], known + {offers[0].username}, rest, cut)
    ensures UpTo(offers, known, [offers[0]] + rest, cut + 1)
  {
    var d := [offers[0]] + rest;
    assert offers[..cut + 1] == [offers[0]] + offers[1..][..cut];
    assert offers[0] in d && forall o :: o in rest ==> o in d;
    assert offers[0].username in Names(d) && Names(rest) <= Names(d);
    hide Names;
  }

  lemma DialsNot(offers: seq<Offer>, known: set<string>, d: seq<Offer>)
    requires offers != [] && offers[0].username in known && DialsWell(offers[1..], known, d)
    ensures DialsWell(offers, known, d)
  {
    var cut: nat :| UpTo(offers[1..], known, d, cut);
    assert offers[..cut + 1] == [offers[0]] + offers[1..][..cut];
    assert UpTo(offers, known, d, cut + 1);
    hide UpTo;
    assert forall o :: o in offers[1..] ==> o in offers;
  }

  /** With fewer than ten, everybody offered is known or dialled. */
  lemma AllDialled(offers: seq<Offer>, known: set<string>, d: seq<Offer>)
    requires DialsWell(offers, known, d) && |known| + |d| < 10
    ensures forall o :: o in offers ==> o.username in known || o.username in Names(d)
  {
    var cut: nat :| UpTo(offers, known, d, cut);
    assert offers[..cut] == offers;
    hide Names;
  }

  /**
   Below a parent nobody is taken up; without one, those dialled are, under new links,
   and those there stay as they are.
   */
  lemma ConsideredAre(own: string, events: seq<Event>, offers: seq<Offer>)
    requires AllValid(events)
    ensures var v := Run(own, events);
            var w := Run(own, events + [Considering(offers)]);
            && |w.candidates| <= 10
            && (v.parent.Some? ==> w == v)
            && (forall u :: u in v.candidates ==> u in w.candidates && w.candidates[u] == v.candidates[u])
            && (forall u :: u in w.candidates && u !in v.candidates ==>
                  w.candidates[u].link >= v.nextLink && exists o :: o in offers && o.username == u)
            && (v.parent.None? && |w.candidates| < 10 ==> forall o :: o in offers ==> o.username in w.candidates)
            && (v.parent.None? ==> Taken(offers, v, w))
  {
    hide Run, Inv, Consider, Taken;
    RunOneMore(own, events, Considering(offers));
    EveryRunKeeps(own, events);
    EveryRunKeeps(own, events + [Considering(offers)]);
    ConsiderIs(Run(own, events), offers);
    TenAtMost(Run(own, events + [Considering(offers)]));
  }

  /** Just those dialled come to the candidates. */
  ghost predicate Taken(offers: seq<Offer>, v: View, w: View) {
    exists d :: DialsWell(offers, v.candidates.Keys, d) && w.candidates.Keys == v.candidates.Keys + Names(d)
                && w.nextLink == v.nextLink + |d|
  }

  lemma TenAtMost(v: View)
    requires Inv(v)
    ensures |v.candidates| <= 10 && v.candidates.Keys == v.candidates.Keys
  {
  }

  lemma ConsiderIs(v: View, offers: seq<Offer>)
    requires Inv(v)
    ensures var w := Consider(v, offers);
            && (v.parent.Some? ==> w == v)
            && (forall u :: u in v.candidates ==> u in w.candidates && w.candidates[u] == v.candidates[u])
            && (forall u :: u in w.candidates && u !in v.candidates ==>
                  w.candidates[u].link >= v.nextLink && exists o :: o in offers && o.username == u)
            && (v.parent.None? && |w.candidates| < 10 ==> forall o :: o in offers ==> o.username in w.candidates)
            && (v.parent.None? ==> Taken(offers, v, w))
  {
    hide Inv, Issue, Dialled, DialsWell, Taken, Names;
    TenAtMost(v);
    if v.parent.None? {
      var d := Dialled(offers, v.candidates.Keys);
      DialledAre(offers, v.candidates.Keys);
      DialledAreNew(offers, v.candidates.Keys);
      IssuedFor(v, d);
      IssuedCount(v, d);
      IssuedAre(v, d);
      assert |v.candidates| == |v.candidates.Keys|;
      if |v.candidates| + |d| < 10 {
        AllDialled(offers, v.candidates.Keys, d);
      }
      DialledWere(offers, v.candidates.Keys, d);
      TakenBy(offers, v, Consider(v, offers), d);
    }
  }

  lemma DialledWere(offers: seq<Offer>, known: set<string>, d: seq<Offer>)
    requires DialsWell(offers, known, d)
    ensures forall u :: u in Names(d) ==> exists o :: o in offers && o.username == u
  {
    hide UpTo;
  }

  lemma TakenBy(offers: seq<Offer>, v: View, w: View, d: seq<Offer>)
    requires DialsWell(offers, v.candidates.Keys, d)
    requires w.candidates.Keys == v.candidates.Keys + Names(d) && w.nextLink == v.nextLink + |d|
    ensures Taken(offers, v, w)
  {
    hide DialsWell, Names;
  }

  predicate AllNew(dials: seq<Offer>, known: set<string>)
    decreases |dials|
  {
    dials == [] || (dials[0].username !in known && AllNew(dials[1..], known + {dials[0].username}))
  }

  lemma {:induction false} DialledAreNew(offers: seq<Offer>, known: set<string>)
    ensures AllNew(Dialled(offers, known), known)
  {
    if offers != [] {
      if offers[0].username in known || |known| >= MAX_CANDIDATES {
        DialledAreNew(offers[1..], known);
      } else {
        DialledAreNew(offers[1..], known + {offers[0].username});
        var rest := Dialled(offers[1..], known + {offers[0].username});
        assert ([offers[0]] + rest)[1..] == rest;
      }
    }
  }

  /** Those dialled become candidates, besides those there are. */
  lemma {:induction false} IssuedFor(v: View, dials: seq<Offer>)
    requires AllNew(dials, v.candidates.Keys)
    ensures var w := Issue(v, dials);
            && (forall u :: u in v.candidates ==> u in w.candidates && w.candidates[u] == v.candidates[u])
            && w.candidates.Keys == v.candidates.Keys + Names(dials) && w.nextLink == v.nextLink + |dials|
    decreases |dials|
  {
    hide Names;
    if dials == [] {
      NoNames();
    } else {
      var next := IssuedOne(v, dials[0].username);
      assert next.candidates.Keys == v.candidates.Keys + {dials[0].username};
      OneName(dials);
      IssuedFor(next, dials[1..]);
    }
  }

  function IssuedOne(v: View, u: string): View {
    v.(candidates := v.candidates[u := Candidate(v.nextLink, None, None)], nextLink := v.nextLink + 1)
  }

  lemma {:induction false} IssuedCount(v: View, dials: seq<Offer>)
    requires AllNew(dials, v.candidates.Keys)
    ensures |Issue(v, dials).candidates| == |v.candidates| + |dials|
    decreases |dials|
  {
    if dials != [] {
      var next := IssuedOne(v, dials[0].username);
      assert next.candidates.Keys == v.candidates.Keys + {dials[0].username};
      OneMore(v.candidates, dials[0].username, Candidate(v.nextLink, None, None));
      IssuedCount(next, dials[1..]);
    }
  }

  lemma NoNames()
    ensures Names([]) == {}
  {
  }

  lemma OneName(d: seq<Offer>)
    requires d != []
    ensures Names(d) == {d[0].username} + Names(d[1..])
  {
    assert d == [d[0]] + d[1..];
  }
}
