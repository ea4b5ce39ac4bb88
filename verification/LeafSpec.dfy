/**
 The leaf as a state machine over its own history: besides the parent and the
 candidates, every link ever issued and what the server has been told. Instants are nanoseconds; links are never reused.
 */
module LeafSpec {
  import opened Basics
  import opened Wrappers

  const SECOND: nat := 1_000_000_000
  const MOVE_INTERVAL: nat := SECOND
  const MAX_CANDIDATES: nat := 10
  const SEARCH_BUDGET: nat := 50
  const U32_MAX: nat := 0xFFFF_FFFF

  datatype Branch = Branch(root: string, level: nat)

  datatype Candidate = Candidate(link: nat, level: Option<nat>, root: Option<string>)

  /** A candidate the server offers. */
  datatype Offer = Offer(username: string, host: string, port: nat)

  /** A notice to the server: a branch, and the claim to have a parent or not. */
  datatype Notice = Notice(branch: Branch, hasParent: bool)

  /**
   `cancelled` and `closed` record the links whose flag was raised and those their
   own thread reported closed; `told` is the branch of the last notice and
   `moves` the instants at which moves were told.
   */
  datatype View = View(
    own: string,
    parent: Option<string>,
    branch: Branch,
    candidates: map<string, Candidate>,
    nextLink: nat,
    moved: Option<nat>,
    movePending: bool,
    cancelled: set<nat>,
    closed: set<nat>,
    told: Branch,
    moves: seq<nat>)

  function Fresh(own: string): View {
    View(own, None, Branch(own, 0), map[], 1, None, false, {}, {}, Branch(own, 0), [])
  }

  function HasLink(v: View, username: string, link: nat): bool {
    username in v.candidates && v.candidates[username].link == link
  }

  function SaturatingSucc(n: nat): nat {
    if n >= U32_MAX then U32_MAX else n + 1
  }

  /** The branch under a candidate whose place is known. */
  function Under(c: Candidate): Option<Branch> {
    if c.root.Some? && c.level.Some? then Some(Branch(c.root.value, SaturatingSucc(c.level.value))) else None
  }

  // ---- The steps ----

  /** The offers that are dialled when `known` candidates are already there. */
  function Dialled(offers: seq<Offer>, known: set<string>): (d: seq<Offer>)
    ensures |known| <= MAX_CANDIDATES ==> |known| + |d| <= MAX_CANDIDATES
  {
    if offers == [] then []
    else if offers[0].username in known || |known| >= MAX_CANDIDATES then Dialled(offers[1..], known)
    else [offers[0]] + Dialled(offers[1..], known + {offers[0].username})
  }

  /** Give each dialled offer the next link. */
  function Issue(v: View, dials: seq<Offer>): View
    decreases |dials|
  {
    if dials == [] then v
    else Issue(v.(candidates := v.candidates[dials[0].username := Candidate(v.nextLink, None, None)],
                  nextLink := v.nextLink + 1),
               dials[1..])
  }

  function Consider(v: View, offers: seq<Offer>): View {
    if v.parent.Some? then v else Issue(v, Dialled(offers, v.candidates.Keys))
  }

  /** The links of these candidates. */
  function Links(m: map<string, Candidate>): set<nat> {
    set u | u in m :: m[u].link
  }

  function CancelAll(v: View): View {
    v.(cancelled := v.cancelled + Links(v.candidates), candidates := map[])
  }

  function Due(v: View, now: nat): (View, Option<Notice>) {
    if !v.movePending || (v.moved.Some? && Elapsed(now, v.moved.value) < MOVE_INTERVAL) then (v, None)
    else
      (v.(movePending := false, moved := Some(now), told := v.branch, moves := v.moves + [now]),
       Some(Notice(v.branch, true)))
  }

  function MovedWithParent(v: View, username: string, now: nat): (View, Option<Notice>)
    requires username in v.candidates
  {
    if v.parent != Some(username) then (v, None)
    else
      var under := Under(v.candidates[username]);
      if under.None? || under.value == v.branch then (v, None)
      else Due(v.(branch := under.value, movePending := true), now)
  }

  function BranchLevel(v: View, username: string, link: nat, level: int, now: nat): (View, Option<Notice>) {
    if !HasLink(v, username, link) then (v, None)
    else
      var c := v.candidates[username].(level := if level >= 0 then Some(level) else None);
      var c' := if level == 0 then c.(root := Some(username)) else c;
      MovedWithParent(v.(candidates := v.candidates[username := c']), username, now)
  }

  function BranchRoot(v: View, username: string, link: nat, root: string, now: nat): (View, Option<Notice>) {
    if !HasLink(v, username, link) then (v, None)
    else
      var c := v.candidates[username].(root := Some(root));
      MovedWithParent(v.(candidates := v.candidates[username := c]), username, now)
  }

  function SearchFrom(v: View, username: string, link: nat): (View, Option<Notice>) {
    if v.parent.Some? || !HasLink(v, username, link) then (v, None)
    else
      var c := v.candidates[username];
      var under := Under(c);
      if under.None? then (v, None)
      else
        var others := CancelAll(v.(candidates := v.candidates - {username}));
        (others.(candidates := map[username := c], parent := Some(username),
                 branch := under.value, told := under.value),
         Some(Notice(under.value, true)))
  }

  /** A link's own thread reports it closed; the caller announces when it was the parent's. */
  function Close(v: View, username: string, link: nat): (View, Option<Notice>) {
    if !HasLink(v, username, link) then (v, None)
    else
      var w := v.(candidates := v.candidates - {username}, closed := v.closed + {link});
      if v.parent != Some(username) then (w, None)
      else
        var own := Branch(v.own, 0);
        (w.(parent := None, branch := own, told := own), Some(Notice(own, false)))
  }

  /** Back to no parent; the caller announces it. */
  function Reset(v: View): (View, Option<Notice>) {
    var own := Branch(v.own, 0);
    (CancelAll(v).(parent := None, branch := own, told := own), Some(Notice(own, false)))
  }

  datatype Event =
    | Considering(offers: seq<Offer>)
    | Levelled(username: string, link: nat, level: int, now: nat)
    | Rooted(username: string, link: nat, root: string, now: nat)
    | Searched(username: string, link: nat)
    | Closing(username: string, link: nat)
    | Resetting
    | Sweeping(now: nat)
  {
    /** A level comes off the wire as a signed 32-bit number. */
    predicate Valid() {
      Levelled? ==> -0x8000_0000 <= level < 0x8000_0000
    }
  }

  function Step(v: View, e: Event): (View, Option<Notice>) {
    match e
    case Considering(offers) => (Consider(v, offers), None)
    case Levelled(username, link, level, now) => BranchLevel(v, username, link, level, now)
    case Rooted(username, link, root, now) => BranchRoot(v, username, link, root, now)
    case Searched(username, link) => SearchFrom(v, username, link)
    case Closing(username, link) => Close(v, username, link)
    case Resetting => Reset(v)
    case Sweeping(now) => Due(v, now)
  }

  function Run(own: string, events: seq<Event>): View {
    if events == [] then Fresh(own) else Step(Run(own, events[..|events| - 1]), events[|events| - 1]).0
  }

  predicate AllValid(events: seq<Event>) {
    forall i :: 0 <= i < |events| ==> events[i].Valid()
  }

  // ---- What every run keeps ----

  predicate Live(v: View, link: nat) {
    exists u :: u in v.candidates && v.candidates[u].link == link
  }

  /** Every link ever issued is exactly one of live, closed by its own thread, and cancelled. */
  ghost predicate LinksAccounted(v: View) {
    && v.nextLink >= 1
    && (forall u :: u in v.candidates ==> 1 <= v.candidates[u].link < v.nextLink)
    && (forall u, w :: u in v.candidates && w in v.candidates && v.candidates[u].link == v.candidates[w].link ==> u == w)
    && (forall l :: l in v.cancelled ==> 1 <= l < v.nextLink && l !in v.closed && !Live(v, l))
    && (forall l :: l in v.closed ==> 1 <= l < v.nextLink && !Live(v, l))
    && (forall l :: 1 <= l < v.nextLink ==> l in v.cancelled || l in v.closed || Live(v, l))
  }

  ghost predicate PlaceKnown(v: View) {
    && (v.parent.None? ==> v.branch == Branch(v.own, 0))
    && (v.parent.Some? ==> v.candidates.Keys == {v.parent.value})
    && (v.parent.Some? && Under(v.candidates[v.parent.value]).Some? ==>
          v.branch == Under(v.candidates[v.parent.value]).value)
    && (forall u :: u in v.candidates && v.candidates[u].level.Some? ==> v.candidates[u].level.value < 0x8000_0000)
  }

  ghost predicate NothingLost(v: View) {
    !v.movePending ==> v.told == v.branch
  }

  ghost predicate MovesSpaced(v: View) {
    && (v.moves == [] <==> v.moved.None?)
    && (v.moves != [] ==> v.moved == Some(v.moves[|v.moves| - 1]))
    && forall i :: 0 < i < |v.moves| ==> v.moves[i - 1] + 1_000_000_000 <= v.moves[i]
  }

  ghost predicate Inv(v: View) {
    |v.candidates| <= MAX_CANDIDATES && LinksAccounted(v) && PlaceKnown(v) && NothingLost(v) && MovesSpaced(v)
  }

  // ---- Preservation, step by step ----

  lemma {:induction false} IssueKeeps(v: View, dials: seq<Offer>)
    requires Inv(v) && v.parent.None? && |v.candidates| + |dials| <= MAX_CANDIDATES
    requires forall i :: 0 <= i < |dials| ==> dials[i].username !in v.candidates
    requires forall i, j :: 0 <= i < j < |dials| ==> dials[i].username != dials[j].username
    ensures Inv(Issue(v, dials))
    ensures Issue(v, dials).nextLink == v.nextLink + |dials|
    ensures forall i :: 0 <= i < |dials| ==>
              && dials[i].username in Issue(v, dials).candidates
              && Issue(v, dials).candidates[dials[i].username] == Candidate(v.nextLink + i, None, None)
    ensures forall u :: u in v.candidates ==>
              u in Issue(v, dials).candidates && Issue(v, dials).candidates[u] == v.candidates[u]
    decreases |dials|
  {
    hide Inv;
    if dials != [] {
      var u := dials[0].username;
      var w := v.(candidates := v.candidates[u := Candidate(v.nextLink, None, None)], nextLink := v.nextLink + 1);
      IssueOneKeeps(v, u);
      IssueKeeps(w, dials[1..]);
      forall i | 0 <= i < |dials|
        ensures dials[i].username in Issue(v, dials).candidates
        ensures Issue(v, dials).candidates[dials[i].username] == Candidate(v.nextLink + i, None, None)
      {
        if i > 0 {
          assert dials[i] == dials[1..][i - 1];
        } else {
          assert u in w.candidates;
        }
      }
    }
  }

  lemma IssueLinks(v: View, w: View, u: string)
    requires LinksAccounted(v) && u !in v.candidates
    requires w == v.(candidates := v.candidates[u := Candidate(v.nextLink, None, None)], nextLink := v.nextLink + 1)
    ensures LinksAccounted(w)
  {
    assert forall x :: x in w.candidates ==> x == u || (x in v.candidates && w.candidates[x] == v.candidates[x]);
    forall l
      ensures Live(w, l) <==> Live(v, l) || l == v.nextLink
    {
      if Live(w, l) {
        var x :| x in w.candidates && w.candidates[x].link == l;
      }
      if Live(v, l) {
        var x :| x in v.candidates && v.candidates[x].link == l;
        assert x in w.candidates && w.candidates[x].link == l;
      }
      assert u in w.candidates && w.candidates[u].link == v.nextLink;
    }
    forall l | 1 <= l < w.nextLink
      ensures l in w.cancelled || l in w.closed || Live(w, l)
    {
      assert Live(w, l) <==> Live(v, l) || l == v.nextLink;
    }
  }

  lemma IssueOneKeeps(v: View, u: string)
    requires Inv(v) && v.parent.None? && |v.candidates| < MAX_CANDIDATES && u !in v.candidates
    ensures Inv(v.(candidates := v.candidates[u := Candidate(v.nextLink, None, None)], nextLink := v.nextLink + 1))
    ensures |v.candidates[u := Candidate(v.nextLink, None, None)]| == |v.candidates| + 1
  {
    hide LinksAccounted, MovesSpaced;
    var w := v.(candidates := v.candidates[u := Candidate(v.nextLink, None, None)], nextLink := v.nextLink + 1);
    IssueLinks(v, w, u);
    SpacedOnly(v, w);
  }

  lemma {:induction false} DialledFresh(offers: seq<Offer>, known: set<string>)
    ensures forall i :: 0 <= i < |Dialled(offers, known)| ==> Dialled(offers, known)[i].username !in known
    ensures forall i, j :: 0 <= i < j < |Dialled(offers, known)| ==>
              Dialled(offers, known)[i].username != Dialled(offers, known)[j].username
  {
    if offers != [] {
      if offers[0].username in known || |known| >= MAX_CANDIDATES {
        DialledFresh(offers[1..], known);
      } else {
        var known' := known + {offers[0].username};
        DialledFresh(offers[1..], known');
        var rest := Dialled(offers[1..], known');
        forall i, j | 0 <= i < j < |Dialled(offers, known)|
          ensures Dialled(offers, known)[i].username != Dialled(offers, known)[j].username
        {
          if i == 0 {
            assert Dialled(offers, known)[j] == rest[j - 1];
          }
        }
      }
    }
  }

  lemma ConsiderKeeps(v: View, offers: seq<Offer>)
    requires Inv(v)
    ensures Inv(Consider(v, offers))
  {
    if v.parent.None? {
      assert |v.candidates| == |v.candidates.Keys|;
      DialledFresh(offers, v.candidates.Keys);
      IssueKeeps(v, Dialled(offers, v.candidates.Keys));
    }
  }

  lemma DueKeeps(v: View, now: nat)
    requires LinksAccounted(v) && MovesSpaced(v)
    ensures var w := Due(v, now).0;
            && w == v.(movePending := w.movePending, moved := w.moved, told := w.told, moves := w.moves)
            && LinksAccounted(w) && MovesSpaced(w) && (NothingLost(v) ==> NothingLost(w))
  {
    var w := Due(v, now).0;
    assert forall l :: Live(v, l) <==> Live(w, l);
  }

  /** Changing what is known of one candidate, under the same link, changes nothing about links. */
  lemma RevisedLinks(v: View, u: string, c: Candidate)
    requires LinksAccounted(v) && u in v.candidates && c.link == v.candidates[u].link
    ensures LinksAccounted(v.(candidates := v.candidates[u := c]))
  {
    var w := v.(candidates := v.candidates[u := c]);
    forall l
      ensures Live(v, l) <==> Live(w, l)
    {
      if Live(v, l) {
        var x :| x in v.candidates && v.candidates[x].link == l;
        assert x in w.candidates && w.candidates[x].link == l;
      }
      if Live(w, l) {
        var x :| x in w.candidates && w.candidates[x].link == l;
        assert x in v.candidates && v.candidates[x].link == l;
      }
    }
  }

  lemma SpacedOnly(v: View, w: View)
    requires MovesSpaced(v) && w.moves == v.moves && w.moved == v.moved
    ensures MovesSpaced(w)
  {
  }

  lemma RevisedKeeps(v: View, u: string, c: Candidate, now: nat)
    requires Inv(v) && u in v.candidates && c.link == v.candidates[u].link
    requires c.level.Some? ==> c.level.value < 0x8000_0000
    ensures Inv(MovedWithParent(v.(candidates := v.candidates[u := c]), u, now).0)
  {
    hide LinksAccounted, MovesSpaced;
    var w := v.(candidates := v.candidates[u := c]);
    SpacedOnly(v, w);
    RevisedLinks(v, u, c);
    assert w.candidates.Keys == v.candidates.Keys;
    assert |w.candidates| == |w.candidates.Keys| == |v.candidates|;
    if v.parent == Some(u) {
      var under := Under(c);
      if under.Some? && under.value != v.branch {
        LinksOnly(w, w.(branch := under.value, movePending := true));
        SpacedOnly(w, w.(branch := under.value, movePending := true));
        DueKeeps(w.(branch := under.value, movePending := true), now);
      }
    }
  }

  /** Everyone but `keep` is dropped with a raised flag. */
  lemma CancelKeeps(v: View, keep: set<string>)
    requires LinksAccounted(v) && keep <= v.candidates.Keys
    ensures var gone := v.candidates - keep;
            LinksAccounted(v.(candidates := v.candidates - gone.Keys,
                              cancelled := v.cancelled + Links(gone)))
  {
    var gone := v.candidates - keep;
    var w := v.(candidates := v.candidates - gone.Keys, cancelled := v.cancelled + Links(gone));
    forall l
      ensures Live(w, l) ==> Live(v, l) && l !in w.cancelled
      ensures Live(v, l) ==> Live(w, l) || l in w.cancelled
    {
      if Live(w, l) {
        var x :| x in w.candidates && w.candidates[x].link == l;
        assert x in v.candidates && v.candidates[x].link == l;
      }
      if Live(v, l) {
        var x :| x in v.candidates && v.candidates[x].link == l;
        if x in keep {
          assert x in w.candidates && w.candidates[x].link == l;
        } else {
          assert x in gone && gone[x].link == l;
        }
      }
    }
    forall l | l in w.cancelled
      ensures 1 <= l < w.nextLink && l !in w.closed && !Live(w, l)
    {
      if l !in v.cancelled {
        var y :| y in gone && gone[y].link == l;
        assert y in v.candidates && v.candidates[y].link == l;
        assert Live(v, l);
      }
    }
  }

  lemma SearchLinks(v: View, u: string, c: Candidate)
    requires LinksAccounted(v) && u in v.candidates && v.candidates[u] == c
    ensures LinksAccounted(CancelAll(v.(candidates := v.candidates - {u})).(candidates := map[u := c]))
  {
    CancelKeeps(v, {u});
    var gone := v.candidates - {u};
    hide LinksAccounted;
    assert v.candidates - gone.Keys == map[u := c];
    assert CancelAll(v.(candidates := v.candidates - {u})).(candidates := map[u := c])
        == v.(candidates := map[u := c], cancelled := v.cancelled + Links(gone));
  }

  /** Who the leaf says it hangs from, and what it says of it, does not bear on its links. */
  lemma LinksOnly(v: View, w: View)
    requires LinksAccounted(v)
    requires w.candidates == v.candidates && w.nextLink == v.nextLink
    requires w.cancelled == v.cancelled && w.closed == v.closed
    ensures LinksAccounted(w)
  {
    assert forall l :: Live(v, l) <==> Live(w, l);
  }

  lemma SearchKeeps(v: View, u: string, link: nat)
    requires Inv(v)
    ensures Inv(SearchFrom(v, u, link).0)
  {
    hide LinksAccounted, MovesSpaced;
    if v.parent.None? && HasLink(v, u, link) && Under(v.candidates[u]).Some? {
      var c := v.candidates[u];
      var w := SearchFrom(v, u, link).0;
      SearchLinks(v, u, c);
      LinksOnly(CancelAll(v.(candidates := v.candidates - {u})).(candidates := map[u := c]), w);
      SpacedOnly(v, w);
      assert |w.candidates| == |w.candidates.Keys| == 1;
    }
  }

  lemma ResetLinks(v: View)
    requires LinksAccounted(v)
    ensures LinksAccounted(CancelAll(v))
  {
    CancelKeeps(v, {});
    hide LinksAccounted;
    assert v.candidates - {} == v.candidates;
    assert v.candidates - v.candidates.Keys == map[];
  }

  lemma ResetKeeps(v: View)
    requires Inv(v)
    ensures Inv(Reset(v).0)
  {
    hide LinksAccounted, MovesSpaced;
    ResetLinks(v);
    LinksOnly(CancelAll(v), Reset(v).0);
    SpacedOnly(v, Reset(v).0);
  }

  lemma CloseLinks(v: View, w: View, u: string, link: nat)
    requires LinksAccounted(v) && HasLink(v, u, link)
    requires w == v.(candidates := v.candidates - {u}, closed := v.closed + {link})
    ensures LinksAccounted(w)
  {
    forall l
      ensures Live(w, l) <==> Live(v, l) && l != link
    {
      if Live(w, l) {
        var x :| x in w.candidates && w.candidates[x].link == l;
        assert x in v.candidates && v.candidates[x].link == l;
      }
      if Live(v, l) && l != link {
        var x :| x in v.candidates && v.candidates[x].link == l;
        assert x in w.candidates && w.candidates[x].link == l;
      }
    }
    assert Live(v, link);
  }

  lemma CloseKeeps(v: View, u: string, link: nat)
    requires Inv(v)
    ensures Inv(Close(v, u, link).0)
  {
    hide LinksAccounted, MovesSpaced;
    if HasLink(v, u, link) {
      var w := Close(v, u, link).0;
      var dropped := v.(candidates := v.candidates - {u}, closed := v.closed + {link});
      CloseLinks(v, dropped, u, link);
      LinksOnly(dropped, w);
      SpacedOnly(v, w);
      assert w.candidates.Keys == v.candidates.Keys - {u};
      assert |w.candidates| == |w.candidates.Keys| < |v.candidates.Keys|;
    }
  }

  lemma StepKeeps(v: View, e: Event)
    requires Inv(v) && e.Valid()
    ensures Inv(Step(v, e).0)
  {
    match e
    case Considering(offers) => ConsiderKeeps(v, offers);
    case Levelled(u, link, level, now) =>
      if HasLink(v, u, link) {
        var c := v.candidates[u].(level := if level >= 0 then Some(level) else None);
        RevisedKeeps(v, u, if level == 0 then c.(root := Some(u)) else c, now);
      }
    case Rooted(u, link, root, now) =>
      if HasLink(v, u, link) {
        RevisedKeeps(v, u, v.candidates[u].(root := Some(root)), now);
      }
    case Searched(u, link) => SearchKeeps(v, u, link);
    case Closing(u, link) => CloseKeeps(v, u, link);
    case Resetting => ResetKeeps(v);
    case Sweeping(now) => DueKeeps(v, now);
  }

  /** Every reachable leaf keeps the cap, the links, its place and its promise to tell moves. */
  lemma {:induction false} EveryRunKeeps(own: string, events: seq<Event>)
    requires AllValid(events)
    ensures Inv(Run(own, events)) && Run(own, events).own == own
  {
    if events != [] {
      EveryRunKeeps(own, events[..|events| - 1]);
      StepKeeps(Run(own, events[..|events| - 1]), events[|events| - 1]);
      OwnKept(Run(own, events[..|events| - 1]), events[|events| - 1]);
    }
  }

  lemma OwnKept(v: View, e: Event)
    ensures Step(v, e).0.own == v.own
  {
    if e.Considering? && v.parent.None? {
      IssueRest(v, Dialled(e.offers, v.candidates.Keys));
    }
  }

  /** Issuing links touches the candidates and the link counter only. */
  lemma {:induction false} IssueRest(v: View, dials: seq<Offer>)
    ensures var w := Issue(v, dials);
            w == v.(candidates := w.candidates, nextLink := w.nextLink)
    decreases |dials|
  {
    if dials != [] {
      IssueRest(v.(candidates := v.candidates[dials[0].username := Candidate(v.nextLink, None, None)],
                   nextLink := v.nextLink + 1), dials[1..]);
    }
  }

  // ---- What the invariant means for callers ----

  /** The parent's place plus one, with no saturation. */
  lemma BranchFollowsParent(own: string, events: seq<Event>)
    requires AllValid(events)
    ensures var v := Run(own, events);
            && |v.candidates| <= 10
            && (v.parent.None? ==> v.branch == Branch(own, 0))
            && (v.parent.Some? ==>
                  && v.candidates.Keys == {v.parent.value}
                  && var c := v.candidates[v.parent.value];
                     c.root.Some? && c.level.Some? ==> v.branch == Branch(c.root.value, c.level.value + 1))
  {
    EveryRunKeeps(own, events);
    var v := Run(own, events);
    if v.parent.Some? {
      var c := v.candidates[v.parent.value];
      if c.root.Some? && c.level.Some? {
        assert Under(c).Some?;
      }
    }
  }

  predicate SpeaksFor(e: Event, link: nat) {
    match e
    case Levelled(_, l, _, _) => l == link
    case Rooted(_, l, _, _) => l == link
    case Searched(_, l) => l == link
    case Closing(_, l) => l == link
    case _ => false
  }

  /** A thread whose link was closed or cancelled cannot change anything, even for the same user. */
  lemma StaleLinkIsIgnored(own: string, events: seq<Event>, e: Event, link: nat)
    requires AllValid(events) && SpeaksFor(e, link)
    requires link in Run(own, events).closed || link in Run(own, events).cancelled || link >= Run(own, events).nextLink
    ensures Step(Run(own, events), e) == (Run(own, events), None)
  {
    EveryRunKeeps(own, events);
    var v := Run(own, events);
    forall u | u in v.candidates
      ensures v.candidates[u].link != link
    {
      if v.candidates[u].link == link {
        assert Live(v, link);
      }
    }
  }

  /** What was told last is told by every notice, and by nothing else. */
  lemma NoticesAreTold(v: View, e: Event)
    ensures var (w, notice) := Step(v, e);
            && (notice.Some? ==> notice.value.branch == w.branch == w.told)
            && (notice.None? ==> w.told == v.told)
  {
    if e.Considering? && v.parent.None? {
      IssueRest(v, Dialled(e.offers, v.candidates.Keys));
    }
  }

  /** A move waits at most until the first sweep an interval after the last one told. */
  lemma SweepTellsThePendingMove(own: string, events: seq<Event>, now: nat)
    requires AllValid(events)
    requires var v := Run(own, events); v.moved.Some? ==> now >= v.moved.value + MOVE_INTERVAL
    ensures var v := Run(own, events + [Sweeping(now)]);
            v.told == v.branch && !v.movePending
  {
    EveryRunKeeps(own, events);
    assert (events + [Sweeping(now)])[..|events|] == events;
  }

  // ---- Where a notice can be wrong ----

  /** A notice says truly whether there is a parent. */
  predicate Truthful(v: View, e: Event) {
    var (w, notice) := Step(v, e);
    notice.Some? ==> notice.value.hasParent == w.parent.Some?
  }

  /** Closing or losing the tree leaves a move that was waiting still waiting. */
  predicate LeavesAMoveWaiting(v: View, e: Event) {
    v.movePending && ((e.Closing? && v.parent == Some(e.username) && HasLink(v, e.username, e.link)) || e.Resetting?)
  }

  /** In a run where no move is waiting when the parent goes, every notice is true. */
  lemma {:induction false} NoticesAreTrue(own: string, events: seq<Event>, e: Event)
    requires AllValid(events) && e.Valid()
    requires forall i :: 0 <= i < |events| ==> !LeavesAMoveWaiting(Run(own, events[..i]), events[i])
    ensures Run(own, events).movePending ==> Run(own, events).parent.Some?
    ensures Truthful(Run(own, events), e)
  {
    hide Step, Truthful, LeavesAMoveWaiting;
    if events != [] {
      var n := |events| - 1;
      var front := events[..n];
      forall i | 0 <= i < |front|
        ensures !LeavesAMoveWaiting(Run(own, front[..i]), front[i])
      {
        assert front[..i] == events[..i];
      }
      NoticesAreTrue(own, front, events[n]);
      PendingNeedsParent(Run(own, front), events[n]);
    }
    TruthfulExactlyWhen(Run(own, events), e);
  }

  lemma PendingNeedsParent(v: View, e: Event)
    requires v.movePending ==> v.parent.Some?
    requires !LeavesAMoveWaiting(v, e)
    ensures Step(v, e).0.movePending ==> Step(v, e).0.parent.Some?
  {
    if e.Considering? && v.parent.None? {
      IssueRest(v, Dialled(e.offers, v.candidates.Keys));
    }
  }

  predicate MoveIsDue(v: View, now: nat) {
    v.moved.None? || Elapsed(now, v.moved.value) >= MOVE_INTERVAL
  }

  /** A move is waiting to be told though there is no parent any more. */
  predicate Stranded(v: View) {
    v.movePending && v.parent.None?
  }

  /** Only a due sweep lies, and it lies exactly when a move is stranded. */
  lemma TruthfulExactlyWhen(v: View, e: Event)
    ensures Truthful(v, e) <==> !(e.Sweeping? && Stranded(v) && MoveIsDue(v, e.now))
  {
    if e.Considering? && v.parent.None? {
      IssueRest(v, Dialled(e.offers, v.candidates.Keys));
    }
  }

  /**
   When the parent goes while a move is waiting, the next sweep that is due tells
   the server that we have a parent although we have none; when none is waiting
   the same sweep tells nothing.
   */
  lemma ClosingThenSweeping(v: View, username: string, link: nat, now: nat)
    requires v.parent == Some(username) && HasLink(v, username, link) && MoveIsDue(v, now)
    ensures var w := Close(v, username, link).0;
            && w.parent.None?
            && Step(w, Sweeping(now)).1 == (if v.movePending then Some(Notice(Branch(v.own, 0), true)) else None)
            && (Truthful(w, Sweeping(now)) <==> !v.movePending)
  {
  }

  /** A reset, as at every new login, strands a waiting move in the same way. */
  lemma ResettingThenSweeping(v: View, now: nat)
    requires MoveIsDue(v, now)
    ensures var w := Reset(v).0;
            && w.parent.None?
            && Step(w, Sweeping(now)).1 == (if v.movePending then Some(Notice(Branch(v.own, 0), true)) else None)
            && (Truthful(w, Sweeping(now)) <==> !v.movePending)
  {
  }

  function RunOn(v: View, events: seq<Event>): View {
    if events == [] then v else Step(RunOn(v, events[..|events| - 1]), events[|events| - 1]).0
  }

  /** No step of this continuation strands a move. */
  predicate Careful(v: View, events: seq<Event>) {
    forall i :: 0 <= i < |events| ==> !LeavesAMoveWaiting(RunOn(v, events[..i]), events[i])
  }

  lemma {:induction false} StaysUnstranded(v: View, events: seq<Event>)
    requires !Stranded(v) && Careful(v, events)
    ensures !Stranded(RunOn(v, events))
  {
    hide Step, LeavesAMoveWaiting;
    if events != [] {
      var n := |events| - 1;
      var front := events[..n];
      forall i | 0 <= i < |front|
        ensures !LeavesAMoveWaiting(RunOn(v, front[..i]), front[i])
      {
        assert front[..i] == events[..i];
      }
      StaysUnstranded(v, front);
      PendingNeedsParent(RunOn(v, front), events[n]);
    }
  }

  /**
   From any state, every notice of every continuation that strands no move is
   true, exactly when no move is stranded already.
   */
  lemma NoticesStayTrueExactlyWhen(v: View)
    ensures (forall events, e :: Careful(v, events) ==> Truthful(RunOn(v, events), e)) <==> !Stranded(v)
  {
    hide Step, Truthful, LeavesAMoveWaiting;
    if Stranded(v) {
      var later := Sweeping(if v.moved.Some? then v.moved.value + MOVE_INTERVAL else 0);
      TruthfulExactlyWhen(v, later);
      var none: seq<Event> := [];
      assert RunOn(v, none) == v;
      assert Careful(v, none) && !Truthful(RunOn(v, none), later);
    } else {
      forall events, e | Careful(v, events)
        ensures Truthful(RunOn(v, events), e)
      {
        StaysUnstranded(v, events);
        TruthfulExactlyWhen(RunOn(v, events), e);
      }
    }
  }

  const ADOPTION: seq<Event> := [Considering([Offer("p", "h", 1)]), Levelled("p", 1, 0, 0), Searched("p", 1)]

  /** A candidate is dialled, says it is a root, and is adopted with its first search. */
  lemma Adopted()
    ensures var v := Run("me", ADOPTION);
            && v.parent == Some("p") && v.branch == Branch("p", 1) && v.own == "me"
            && v.candidates == map["p" := Candidate(1, Some(0), Some("p"))]
            && !v.movePending && v.moved.None?
  {
    var e1: seq<Event> := [] + [ADOPTION[0]];
    var e2 := e1 + [ADOPTION[1]];
    RunSnoc("me", [], ADOPTION[0]);
    RunSnoc("me", e1, ADOPTION[1]);
    RunSnoc("me", e2, ADOPTION[2]);
    assert e2 + [ADOPTION[2]] == ADOPTION;
    assert Dialled([Offer("p", "h", 1)], {}) == [Offer("p", "h", 1)];
    assert Run("me", e1).candidates == map["p" := Candidate(1, None, None)];
    assert Run("me", e2).candidates == map["p" := Candidate(1, Some(0), Some("p"))];
    assert HasLink(Run("me", e2), "p", 1);
  }

  /** Two moves within an interval, then the parent's link closes: the next sweep's notice is false. */
  lemma AFalseNotice()
    ensures exists events, now ::
              AllValid(events) && !Truthful(Run("me", events), Sweeping(now))
  {
    Adopted();
    hide Run, Truthful;
    var e4 := ADOPTION + [Levelled("p", 1, 1, 0)];
    var e5 := e4 + [Levelled("p", 1, 2, 1)];
    var e6 := e5 + [Closing("p", 1)];
    RunSnoc("me", ADOPTION, Levelled("p", 1, 1, 0));
    RunSnoc("me", e4, Levelled("p", 1, 2, 1));
    RunSnoc("me", e5, Closing("p", 1));
    var v4 := Run("me", e4);
    assert v4.branch == Branch("p", 2) && v4.moved == Some(0) && !v4.movePending && v4.parent == Some("p");
    var v5 := Run("me", e5);
    assert v5.branch == Branch("p", 3) && v5.movePending && v5.parent == Some("p") && v5.moved == Some(0);
    ClosingThenSweeping(v5, "p", 1, MOVE_INTERVAL);
    assert AllValid(e6) && !Truthful(Run("me", e6), Sweeping(MOVE_INTERVAL));
  }

  lemma RunSnoc(own: string, events: seq<Event>, e: Event)
    ensures Run(own, events + [e]) == Step(Run(own, events), e).0
  {
    assert (events + [e])[..|events|] == events;
  }

  // ---- The search budget ----

  /** The current window's start and how many searches asked to be admitted in it. */
  datatype Budget = Budget(window: nat, asked: nat)

  function Admit(b: Budget, now: nat): (bool, Budget) {
    var b' := if Elapsed(now, b.window) >= SECOND then Budget(now, 0) else b;
    (b'.asked < SEARCH_BUDGET, b'.(asked := b'.asked + 1))
  }

  function BudgetAfter(start: nat, times: seq<nat>): Budget {
    if times == [] then Budget(start, 0)
    else Admit(BudgetAfter(start, times[..|times| - 1]), times[|times| - 1]).1
  }

  /** How many of the searches asked at `times` are admitted inside the second that starts at `t`. */
  function AdmittedIn(start: nat, times: seq<nat>, t: nat): nat {
    if times == [] then 0
    else
      var n := |times| - 1;
      AdmittedIn(start, times[..n], t)
      + (if t <= times[n] < t + 1_000_000_000 && Admit(BudgetAfter(start, times[..n]), times[n]).0 then 1 else 0)
  }

  predicate Ordered(start: nat, times: seq<nat>) {
    && (forall i :: 0 <= i < |times| ==> start <= times[i])
    && (forall i, j :: 0 <= i < j < |times| ==> times[i] <= times[j])
  }

  /** What is known of the second that starts at `t` when the last search was asked at `last`. */
  ghost predicate WithinBudget(b: Budget, last: nat, t: nat, admitted: nat) {
    var most := if b.asked < SEARCH_BUDGET then b.asked else SEARCH_BUDGET;
    && b.window <= last < b.window + SECOND
    && (admitted > 0 ==> t <= last)
    && (b.window <= t ==> admitted <= most)
    && (t < b.window < t + SECOND ==> admitted <= SEARCH_BUDGET + most)
    && admitted <= 2 * SEARCH_BUDGET
  }

  lemma {:induction false} BudgetHolds(start: nat, times: seq<nat>, t: nat)
    requires Ordered(start, times)
    ensures WithinBudget(BudgetAfter(start, times), if times == [] then start else times[|times| - 1], t,
                         AdmittedIn(start, times, t))
  {
    if times != [] {
      var n := |times| - 1;
      BudgetHolds(start, times[..n], t);
      if n > 0 {
        assert times[n - 1] <= times[n];
      }
    }
  }

  /** Whatever second is looked at, at most a hundred searches, twice the budget, are admitted in it. */
  lemma AtMostTwoBudgetsASecond(start: nat, times: seq<nat>, t: nat)
    requires Ordered(start, times)
    ensures AdmittedIn(start, times, t) <= 100
  {
    BudgetHolds(start, times, t);
  }

  /** Of searches all asked in one window, exactly the first fifty are admitted. */
  lemma {:induction false} OneWindow(start: nat, times: seq<nat>, t: nat)
    requires Ordered(start, times)
    requires forall i :: 0 <= i < |times| ==> times[i] < start + 1_000_000_000 && t <= times[i] < t + 1_000_000_000
    ensures BudgetAfter(start, times) == Budget(start, |times|)
    ensures AdmittedIn(start, times, t) == AtMostABudget(|times|)
  {
    if times != [] {
      OneWindow(start, times[..|times| - 1], t);
    }
  }

  function AtMostABudget(asked: nat): nat {
    if asked < 50 then asked else 50
  }

  /** The search asked at `times[k]` starts a new window. */
  predicate Starts(start: nat, times: seq<nat>, k: nat)
    requires k < |times|
  {
    Elapsed(times[k], BudgetAfter(start, times[..k]).window) >= SECOND
  }

  /** How many searches from the `k`th on are asked before the second that starts at `t` is over. */
  function AskedFrom(times: seq<nat>, k: nat, t: nat): nat {
    if |times| <= k then 0
    else
      var n := |times| - 1;
      AskedFrom(times[..n], k, t) + (if times[n] < t + SECOND then 1 else 0)
  }

  /** A window that starts inside the second splits what the second admits in two. */
  lemma {:induction false} SplitAtAWindow(start: nat, times: seq<nat>, t: nat, k: nat)
    requires Ordered(start, times) && k < |times| && Starts(start, times, k) && t < times[k] < t + SECOND
    ensures AdmittedIn(start, times, t) == AdmittedIn(start, times[..k], t) + AtMostABudget(AskedFrom(times, k, t))
    ensures times[|times| - 1] < times[k] + SECOND ==> BudgetAfter(start, times) == Budget(times[k], |times| - k)
    ensures times[|times| - 1] < t + SECOND ==> AskedFrom(times, k, t) == |times| - k
    decreases |times|
  {
    hide AdmittedIn, BudgetAfter, AskedFrom;
    var n := |times| - 1;
    var front := times[..n];
    if k == n {
      SplitHere(start, times, t);
    } else {
      assert front[..k] == times[..k] && front[k] == times[k] && front[n - 1] == times[n - 1];
      SplitAtAWindow(start, front, t, k);
      SplitOneOn(start, times, t, k);
    }
  }

  lemma SplitHere(start: nat, times: seq<nat>, t: nat)
    requires times != [] && Starts(start, times, |times| - 1) && t < times[|times| - 1] < t + SECOND
    ensures var k := |times| - 1;
            && AdmittedIn(start, times, t) == AdmittedIn(start, times[..k], t) + AtMostABudget(AskedFrom(times, k, t))
            && BudgetAfter(start, times) == Budget(times[k], 1)
            && AskedFrom(times, k, t) == 1
  {
    assert AskedFrom(times[..|times| - 1], |times| - 1, t) == 0;
  }

  /** What holds of the split goes on holding with one search more. */
  lemma SplitOneOn(start: nat, times: seq<nat>, t: nat, k: nat)
    requires Ordered(start, times) && k < |times| - 1 && t < times[k] < t + SECOND
    requires var n, front := |times| - 1, times[..|times| - 1];
             && AdmittedIn(start, front, t) == AdmittedIn(start, times[..k], t) + AtMostABudget(AskedFrom(front, k, t))
             && (times[n - 1] < times[k] + SECOND ==> BudgetAfter(start, front) == Budget(times[k], n - k))
             && (times[n - 1] < t + SECOND ==> AskedFrom(front, k, t) == n - k)
    ensures AdmittedIn(start, times, t) == AdmittedIn(start, times[..k], t) + AtMostABudget(AskedFrom(times, k, t))
    ensures times[|times| - 1] < times[k] + SECOND ==> BudgetAfter(start, times) == Budget(times[k], |times| - k)
    ensures times[|times| - 1] < t + SECOND ==> AskedFrom(times, k, t) == |times| - k
  {
    assert times[|times| - 2] <= times[|times| - 1];
    hide Ordered;
  }

  /** With no window starting strictly inside it, a second admits one budget at most. */
  lemma {:induction false} NoWindowInside(start: nat, times: seq<nat>, t: nat)
    requires Ordered(start, times)
    requires forall k :: 0 <= k < |times| && Starts(start, times, k) ==> !(t < times[k] < t + SECOND)
    ensures var b := BudgetAfter(start, times);
            AdmittedIn(start, times, t) <= if b.window < t + SECOND then AtMostABudget(b.asked) else SEARCH_BUDGET
  {
    if times != [] {
      hide BudgetAfter, AdmittedIn, WithinBudget;
      var n := |times| - 1;
      var front := times[..n];
      forall k | 0 <= k < n && Starts(start, front, k)
        ensures !(t < front[k] < t + SECOND)
      {
        assert front[..k] == times[..k];
        assert Starts(start, times, k);
      }
      NoWindowInside(start, front, t);
      BudgetHolds(start, front, t);
      OneMoreAsked(start, times, t);
    }
  }

  lemma OneMoreAsked(start: nat, times: seq<nat>, t: nat)
    requires times != [] && Ordered(start, times)
    requires Starts(start, times, |times| - 1) ==> !(t < times[|times| - 1] < t + SECOND)
    requires var front := times[..|times| - 1];
             var b := BudgetAfter(start, front);
             && WithinBudget(b, if front == [] then start else front[|front| - 1], t, AdmittedIn(start, front, t))
             && AdmittedIn(start, front, t) <= if b.window < t + SECOND then AtMostABudget(b.asked) else SEARCH_BUDGET
    ensures var b := BudgetAfter(start, times);
            AdmittedIn(start, times, t) <= if b.window < t + SECOND then AtMostABudget(b.asked) else SEARCH_BUDGET
  {
    var n := |times| - 1;
    assert n > 0 ==> times[n - 1] <= times[n];
    hide Ordered;
  }

  /**
   A second admits more than the budget exactly when a window starts strictly
   inside it and what came before that and what the new window admits are
   together more than the budget.
   */
  lemma OverBudgetExactlyWhen(start: nat, times: seq<nat>, t: nat)
    requires Ordered(start, times)
    ensures AdmittedIn(start, times, t) > 50 <==>
            exists k :: 0 <= k < |times| && Starts(start, times, k) && t < times[k] < t + SECOND
                        && AdmittedIn(start, times[..k], t) + AtMostABudget(AskedFrom(times, k, t)) > 50
  {
    hide AdmittedIn, AskedFrom, BudgetAfter;
    if k :| 0 <= k < |times| && Starts(start, times, k) && t < times[k] < t + SECOND {
      SplitAtAWindow(start, times, t, k);
      forall j | 0 <= j < |times| && Starts(start, times, j) && t < times[j] < t + SECOND
        ensures AdmittedIn(start, times, t)
             == AdmittedIn(start, times[..j], t) + AtMostABudget(AskedFrom(times, j, t))
      {
        SplitAtAWindow(start, times, t, j);
      }
    } else {
      NoWindowInside(start, times, t);
    }
  }

  const HALF_PAST: nat := SECOND / 2

  /** Fifty searches at the end of a window and fifty at the start of the next are all admitted within a second. */
  lemma TwoBudgetsInASecond()
    ensures exists times :: Ordered(0, times) && AdmittedIn(0, times, 500_000_000) == 100
  {
    var first := seq(SEARCH_BUDGET, _ => SECOND - 1);
    var second := seq(SEARCH_BUDGET, _ => SECOND);
    var times := first + second;
    OneWindow(0, first, HALF_PAST);
    assert times[..SEARCH_BUDGET] == first;
    assert Starts(0, times, SEARCH_BUDGET);
    SplitAtAWindow(0, times, HALF_PAST, SEARCH_BUDGET);
    hide AdmittedIn, AskedFrom, BudgetAfter;
  }
}
