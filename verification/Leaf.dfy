/**
 The leaf as it runs: fields changed in place and cancel flags shared with the
 threads that dial. Every method takes the step LeafSpec gives it.
 */
module Leaf {
  import opened Basics
  import opened Wrappers
  import opened LeafSpec

  /** The flag a link's thread polls. Only the leaf raises it. */
  class CancelFlag {
    var raised: bool

    constructor ()
      ensures !raised
    {
      raised := false;
    }
  }

  datatype Sounding = Sounding(link: nat, level: Option<nat>, root: Option<string>, cancel: CancelFlag)

  datatype Dial = Dial(link: nat, username: string, host: string, port: nat, cancel: CancelFlag)

  function Seen(c: Sounding): Candidate {
    Candidate(c.link, c.level, c.root)
  }

  function Abs(candidates: map<string, Sounding>): (r: map<string, Candidate>)
    ensures r.Keys == candidates.Keys
    ensures forall u :: u in candidates ==> r[u] == Seen(candidates[u])
  {
    map u | u in candidates :: Seen(candidates[u])
  }

  lemma AbsUpdate(m: map<string, Sounding>, u: string, c: Sounding)
    ensures Abs(m[u := c]) == Abs(m)[u := Seen(c)]
  {
  }

  lemma AbsRemove(m: map<string, Sounding>, u: string)
    ensures Abs(m - {u}) == Abs(m) - {u}
  {
  }

  lemma AbsNone()
    ensures Abs(map[]) == map[]
  {
  }

  lemma AbsOnly(u: string, c: Sounding)
    ensures Abs(map[]) == map[] && Abs(map[u := c]) == map[u := Seen(c)]
  {
  }

  ghost predicate FlagsOk(
    issued: map<nat, CancelFlag>, candidates: map<string, Sounding>, cancelled: set<nat>, nextLink: nat)
    reads issued.Values
  {
    && (forall l :: l in issued <==> 1 <= l < nextLink)
    && (forall l, m :: l in issued && m in issued && issued[l] == issued[m] ==> l == m)
    && (forall u :: u in candidates ==> candidates[u].link in issued && issued[candidates[u].link] == candidates[u].cancel)
    && (forall l :: l in issued ==> (issued[l].raised <==> l in cancelled))
    && (forall l :: l in cancelled ==> l < nextLink)
  }

  /** The next link goes to a new candidate with a flag nobody else has. */
  lemma FlagsIssue(
    issued: map<nat, CancelFlag>, m: map<string, Sounding>, cancelled: set<nat>, nextLink: nat, u: string, cancel: CancelFlag)
    requires FlagsOk(issued, m, cancelled, nextLink) && nextLink >= 1
    requires cancel !in issued.Values && !cancel.raised
    ensures FlagsOk(issued[nextLink := cancel], m[u := Sounding(nextLink, None, None, cancel)], cancelled, nextLink + 1)
  {
    var issued' := issued[nextLink := cancel];
    assert forall l :: l in issued' ==> l == nextLink || (l in issued && issued'[l] == issued[l]);
    assert forall l :: l in issued ==> issued[l] in issued.Values;
  }

  function Adopting(v: View, u: string, under: Branch): View
    requires u in v.candidates
  {
    CancelAll(v.(candidates := v.candidates - {u}))
      .(candidates := map[u := v.candidates[u]], parent := Some(u), branch := under, told := under)
  }

  function Dropping(v: View, u: string, link: nat): (View, bool) {
    var w := v.(candidates := v.candidates - {u}, closed := v.closed + {link});
    if v.parent != Some(u) then (w, false)
    else (w.(parent := None, branch := Branch(v.own, 0), told := Branch(v.own, 0)), true)
  }

  /** Candidates may go, or say more under the link they have. */
  lemma FlagsKept(
    issued: map<nat, CancelFlag>, m: map<string, Sounding>, m': map<string, Sounding>, cancelled: set<nat>, nextLink: nat)
    requires FlagsOk(issued, m, cancelled, nextLink)
    requires forall u :: u in m' ==> u in m && m'[u].link == m[u].link && m'[u].cancel == m[u].cancel
    ensures FlagsOk(issued, m', cancelled, nextLink)
  {
  }

  lemma FlagsAdopt(issued: map<nat, CancelFlag>, u: string, c: Sounding, cancelled: set<nat>, nextLink: nat)
    requires FlagsOk(issued, map[], cancelled, nextLink)
    requires c.link in issued && issued[c.link] == c.cancel
    ensures FlagsOk(issued, map[u := c], cancelled, nextLink)
  {
  }

  lemma FlagOf(issued: map<nat, CancelFlag>, m: map<string, Sounding>, cancelled: set<nat>, nextLink: nat, u: string)
    requires FlagsOk(issued, m, cancelled, nextLink) && u in m
    ensures m[u].link in issued && issued[m[u].link] == m[u].cancel
  {
  }

  method RaiseOne(
    ghost issued: map<nat, CancelFlag>, candidates: map<string, Sounding>, ghost cancelled: set<nat>,
    ghost nextLink: nat, u: string)
    requires FlagsOk(issued, candidates, cancelled, nextLink) && u in candidates
    modifies issued.Values
    ensures FlagsOk(issued, candidates, cancelled + {candidates[u].link}, nextLink)
  {
    ghost var link := candidates[u].link;
    assert candidates[u].cancel in issued.Values;
    candidates[u].cancel.raised := true;
    forall l | l in issued
      ensures issued[l].raised <==> l in cancelled + {link}
    {
      assert issued[l] == issued[link] <==> l == link;
    }
  }

  /** Raise every candidate's flag, one after the other. */
  method RaiseAll(
    ghost issued: map<nat, CancelFlag>, candidates: map<string, Sounding>, ghost cancelled: set<nat>, ghost nextLink: nat)
    requires FlagsOk(issued, candidates, cancelled, nextLink)
    modifies issued.Values
    ensures FlagsOk(issued, candidates, cancelled + LinksOf(candidates, candidates.Keys), nextLink)
  {
    hide FlagsOk;
    var left := candidates.Keys;
    assert cancelled + LinksOf(candidates, {}) == cancelled;
    assert candidates.Keys - left == {};
    while left != {}
      invariant left <= candidates.Keys
      invariant FlagsOk(issued, candidates, cancelled + LinksOf(candidates, candidates.Keys - left), nextLink)
      decreases |left|
    {
      var u :| u in left;
      ghost var before := cancelled + LinksOf(candidates, candidates.Keys - left);
      RaiseOne(issued, candidates, before, nextLink, u);
      left := left - {u};
      assert cancelled + LinksOf(candidates, candidates.Keys - left) == before + {candidates[u].link};
    }
    assert candidates.Keys - left == candidates.Keys;
  }

  class Leaf {
    const own: string
    var parent: Option<string>
    var branch: Branch
    var candidates: map<string, Sounding>
    var nextLink: nat
    var moved: Option<nat>
    var movePending: bool
    var window: nat
    var admitted: nat

    /** Every flag handed out, by link, and what became of the links. */
    ghost var issued: map<nat, CancelFlag>
    ghost var cancelled: set<nat>
    ghost var closed: set<nat>
    ghost var told: Branch
    ghost var moves: seq<nat>

    ghost function View(): View
      reads this
    {
      LeafSpec.View(own, parent, branch, Abs(candidates), nextLink,
                    moved, movePending, cancelled, closed, told, moves)
    }

    /** A flag is raised exactly when its link was cancelled, and no two links share one. */
    ghost predicate FlagsTell()
      reads this, issued.Values
    {
      FlagsOk(issued, candidates, cancelled, nextLink)
    }

    ghost predicate Valid()
      reads this, issued.Values
    {
      FlagsTell() && Inv(View())
    }

    constructor (own: string, now: nat)
      ensures Valid() && View() == Fresh(own) && issued == map[]
      ensures Budget() == LeafSpec.Budget(now, 0)
    {
      this.own := own;
      parent, branch, candidates, nextLink := None, Branch(own, 0), map[], 1;
      moved, movePending, window, admitted := None, false, now, 0;
      issued, cancelled, closed, told, moves := map[], {}, {}, Branch(own, 0), [];
      new;
      assert View() == Fresh(own);
      FreshHolds(own);
    }

    method IsParent(username: string, link: nat) returns (r: bool)
      ensures r <==> View().parent == Some(username) && LeafSpec.HasLink(View(), username, link)
    {
      r := parent == Some(username) && HasLink(username, link);
    }

    predicate HasLink(username: string, link: nat)
      reads this
      ensures HasLink(username, link) == LeafSpec.HasLink(View(), username, link)
    {
      username in candidates && candidates[username].link == link
    }

    /** New candidates to dial, each with the next link and a flag of its own. */
    method Consider(offers: seq<Offer>) returns (dials: seq<Dial>)
      requires Valid()
      modifies `candidates, `nextLink, `issued
      ensures Valid() && View() == LeafSpec.Consider(old(View()), offers)
      ensures Grown(old(issued), issued)
      ensures old(parent).Some? ==> dials == []
      ensures old(parent).None? ==> DialsOk(dials, Dialled(offers, old(candidates).Keys), old(nextLink), issued)
      ensures forall d :: d in dials ==> fresh(d.cancel) && !d.cancel.raised
    {
      dials := [];
      ConsiderKeeps(View(), offers);
      hide Inv, Abs, FlagsOk;
      if parent.Some? {
        return;
      }
      dials := DialAll(offers);
    }

    method DialAll(offers: seq<Offer>) returns (dials: seq<Dial>)
      requires FlagsTell() && nextLink >= 1
      modifies `candidates, `nextLink, `issued
      ensures FlagsTell() && View() == Issue(old(View()), Dialled(offers, old(candidates).Keys))
      ensures Grown(old(issued), issued)
      ensures DialsOk(dials, Dialled(offers, old(candidates).Keys), old(nextLink), issued)
      ensures forall d :: d in dials ==> fresh(d.cancel) && !d.cancel.raised
    {
      hide Abs, FlagsOk, DialsOk, Grown;
      dials := [];
      ghost var v := View();
      ghost var keys := candidates.Keys;
      ghost var done: seq<Offer> := [];
      NoDials(nextLink, issued);
      CancelledBelow(issued, candidates, cancelled, nextLink);
      for k := 0 to |offers|
        invariant FlagsTell()
        invariant View() == Issue(v, done) && nextLink == v.nextLink + |done|
        invariant Dialled(offers, keys) == done + Dialled(offers[k..], candidates.Keys)
        invariant Grown(old(issued), issued) && DialsOk(dials, done, v.nextLink, issued)
        invariant forall d :: d in dials ==> fresh(d.cancel)
      {
        hide Issue, Dialled;
        var offer := offers[k];
        assert |candidates| == |candidates.Keys|;
        DialledStep(offers, k, candidates.Keys);
        if offer.username in candidates || |candidates| >= MAX_CANDIDATES {
          continue;
        }
        IssueSnoc(v, done, offer);
        Associative(done, [offer], Dialled(offers[k + 1..], candidates.Keys + {offer.username}));
        ghost var before := issued;
        var d := DialOne(offer);
        DialsSnoc(old(issued), before, dials, done, v.nextLink, d, offer);
        dials := dials + [d];
        done := done + [offer];
      }
      assert offers[|offers|..] == [];
      assert done == Dialled(offers, keys);
      NoneRaised(dials, done, v.nextLink, issued, candidates, cancelled, nextLink);
    }

    method DialOne(offer: Offer) returns (d: Dial)
      requires FlagsTell() && offer.username !in candidates && nextLink >= 1
      modifies `candidates, `nextLink, `issued
      ensures FlagsTell() && View() == IssueOne(old(View()), offer.username)
      ensures candidates.Keys == old(candidates).Keys + {offer.username} && nextLink == old(nextLink) + 1
      ensures d == ToDial(offer, old(nextLink), d.cancel) && fresh(d.cancel) && !d.cancel.raised
      ensures issued == old(issued)[d.link := d.cancel] && d.link !in old(issued)
    {
      hide Abs, FlagsOk;
      var cancel := new CancelFlag();
      d := Register(offer, cancel);
    }

    method Register(offer: Offer, cancel: CancelFlag) returns (d: Dial)
      requires FlagsTell() && nextLink >= 1 && cancel !in issued.Values && !cancel.raised
      modifies `candidates, `nextLink, `issued
      ensures FlagsTell() && View() == IssueOne(old(View()), offer.username)
      ensures candidates.Keys == old(candidates).Keys + {offer.username} && nextLink == old(nextLink) + 1
      ensures d == ToDial(offer, old(nextLink), cancel)
      ensures issued == old(issued)[d.link := cancel] && d.link !in old(issued)
    {
      hide Abs, FlagsOk;
      NotIssued(issued, candidates, cancelled, nextLink);
      FlagsIssue(issued, candidates, cancelled, nextLink, offer.username, cancel);
      AbsUpdate(candidates, offer.username, Sounding(nextLink, None, None, cancel));
      var link := nextLink;
      candidates, nextLink, issued :=
        candidates[offer.username := Sounding(link, None, None, cancel)], link + 1, issued[link := cancel];
      d := Dial(link, offer.username, offer.host, offer.port, cancel);
    }

    /** Notes the level a candidate gives; returns the branch if that moved us and may be told at once. */
    method BranchLevel(username: string, link: nat, level: int, now: nat) returns (announce: Option<Branch>)
      requires Valid() && -0x8000_0000 <= level < 0x8000_0000
      modifies `candidates, `branch, `movePending, `moved, `told, `moves
      ensures Valid()
      ensures View() == LeafSpec.BranchLevel(old(View()), username, link, level, now).0
      ensures announce == Announced(LeafSpec.BranchLevel(old(View()), username, link, level, now).1)
    {
      StepKeeps(View(), Levelled(username, link, level, now));
      hide Inv, Abs, MovedWithParent, FlagsOk;
      if !HasLink(username, link) {
        return None;
      }
      var c := candidates[username].(level := if level >= 0 then Some(level) else None);
      if level == 0 {
        c := c.(root := Some(username));
      }
      announce := Revise(username, c, now);
    }

    method BranchRoot(username: string, link: nat, root: string, now: nat) returns (announce: Option<Branch>)
      requires Valid()
      modifies `candidates, `branch, `movePending, `moved, `told, `moves
      ensures Valid()
      ensures View() == LeafSpec.BranchRoot(old(View()), username, link, root, now).0
      ensures announce == Announced(LeafSpec.BranchRoot(old(View()), username, link, root, now).1)
    {
      StepKeeps(View(), Rooted(username, link, root, now));
      hide Inv, Abs, MovedWithParent, FlagsOk;
      if !HasLink(username, link) {
        return None;
      }
      announce := Revise(username, candidates[username].(root := Some(root)), now);
    }

    /** Replaces the candidate's entry and, if it is the parent's, takes over the branch under it. */
    method Revise(username: string, c: Sounding, now: nat) returns (announce: Option<Branch>)
      requires FlagsTell() && username in candidates
      requires c.link == candidates[username].link && c.cancel == candidates[username].cancel
      modifies `candidates, `branch, `movePending, `moved, `told, `moves
      ensures FlagsTell()
      ensures var v := old(View());
              var r := LeafSpec.MovedWithParent(v.(candidates := v.candidates[username := Seen(c)]), username, now);
              View() == r.0 && announce == Announced(r.1)
    {
      hide Abs, LeafSpec.Due, FlagsOk;
      AbsUpdate(candidates, username, c);
      FlagsKept(issued, candidates, candidates[username := c], cancelled, nextLink);
      candidates := candidates[username := c];
      if parent != Some(username) {
        return None;
      }
      if c.root.None? || c.level.None? {
        return None;
      }
      var under := Branch(c.root.value, SaturatingSucc(c.level.value));
      if under == branch {
        return None;
      }
      branch, movePending := under, true;
      announce := DueAnnouncement(now);
    }

    /** `Due` on the object's fields: tells and clears a waiting move, or leaves everything alone. */
    method DueAnnouncement(now: nat) returns (announce: Option<Branch>)
      requires FlagsTell()
      modifies `movePending, `moved, `told, `moves
      ensures FlagsTell()
      ensures View() == Due(old(View()), now).0 && announce == Announced(Due(old(View()), now).1)
    {
      hide Abs, FlagsOk;
      if !movePending {
        return None;
      }
      if moved.Some? && Elapsed(now, moved.value) < MOVE_INTERVAL {
        return None;
      }
      movePending, moved, told, moves := false, Some(now), branch, moves + [now];
      announce := Some(branch);
    }

    /** The first search from a candidate whose place is known adopts it and cancels the others. */
    method SearchFrom(username: string, link: nat) returns (announce: Option<Branch>)
      requires Valid()
      modifies `candidates, `parent, `branch, `told, `cancelled, issued.Values
      ensures Valid()
      ensures View() == LeafSpec.SearchFrom(old(View()), username, link).0
      ensures announce == Announced(LeafSpec.SearchFrom(old(View()), username, link).1)
    {
      SearchKeeps(View(), username, link);
      hide Inv, Abs, FlagsOk, CancelAll;
      if parent.Some? || !HasLink(username, link) {
        return None;
      }
      if candidates[username].level.None? || candidates[username].root.None? {
        return None;
      }
      var under := Adopt(username);
      announce := Some(under);
    }

    method Adopt(username: string) returns (under: Branch)
      requires FlagsTell() && username in candidates && Under(Seen(candidates[username])).Some?
      modifies `candidates, `parent, `branch, `told, `cancelled, issued.Values
      ensures FlagsTell() && under == Under(old(View()).candidates[username]).value
      ensures View() == Adopting(old(View()), username, under)
    {
      hide Abs, FlagsOk, CancelAll;
      var c := TakeOut(username);
      AbsOnly(username, c);
      FlagsAdopt(issued, username, c, cancelled, nextLink);
      under := Branch(c.root.value, SaturatingSucc(c.level.value));
      candidates, parent, branch, told := map[username := c], Some(username), under, under;
    }

    /** Remove one candidate and cancel the others. */
    method TakeOut(username: string) returns (c: Sounding)
      requires FlagsTell() && username in candidates
      modifies `candidates, `cancelled, issued.Values
      ensures FlagsTell() && candidates == map[] && c == old(candidates)[username]
      ensures c.link in issued && issued[c.link] == c.cancel
      ensures View() == CancelAll(old(View()).(candidates := old(View()).candidates - {username}))
    {
      hide Abs, FlagsOk, LinksOf, Links;
      c := candidates[username];
      AbsRemove(candidates, username);
      AbsNone();
      LinksAbs(candidates - {username});
      FlagOf(issued, candidates, cancelled, nextLink, username);
      FlagsKept(issued, candidates, candidates - {username}, cancelled, nextLink);
      candidates := candidates - {username};
      CancelCandidates();
    }

    /** The link's thread says it closed: true when it was the parent's. */
    method Close(username: string, link: nat) returns (wasParent: bool)
      requires Valid()
      modifies `candidates, `closed, `parent, `branch, `told
      ensures Valid()
      ensures View() == LeafSpec.Close(old(View()), username, link).0
      ensures wasParent <==> LeafSpec.Close(old(View()), username, link).1.Some?
    {
      CloseKeeps(View(), username, link);
      hide Inv, Abs, FlagsOk;
      if !HasLink(username, link) {
        return false;
      }
      wasParent := Drop(username);
    }

    method Drop(username: string) returns (wasParent: bool)
      requires FlagsTell() && username in candidates
      modifies `candidates, `closed, `parent, `branch, `told
      ensures FlagsTell()
      ensures var v := old(View());
              && (View(), wasParent) == Dropping(v, username, v.candidates[username].link)
    {
      hide Abs, FlagsOk;
      AbsRemove(candidates, username);
      FlagsKept(issued, candidates, candidates - {username}, cancelled, nextLink);
      var link := candidates[username].link;
      if parent != Some(username) {
        candidates, closed := candidates - {username}, closed + {link};
        return false;
      }
      candidates, closed := candidates - {username}, closed + {link};
      parent, branch, told := None, Branch(own, 0), Branch(own, 0);
      wasParent := true;
    }

    method Reset()
      requires Valid()
      modifies `candidates, `cancelled, `parent, `branch, `told, issued.Values
      ensures Valid()
      ensures View() == LeafSpec.Reset(old(View())).0
    {
      ResetKeeps(View());
      hide Inv, Abs, CancelAll, FlagsOk;
      Forget();
    }

    method Forget()
      requires FlagsTell()
      modifies `candidates, `cancelled, `parent, `branch, `told, issued.Values
      ensures FlagsTell()
      ensures View() == LeafSpec.Reset(old(View())).0
    {
      hide Abs, FlagsOk, LinksOf, Links;
      LinksAbs(candidates);
      AbsNone();
      CancelCandidates();
      parent, branch, told := None, Branch(own, 0), Branch(own, 0);
    }

    /** Raise the flag of every candidate and forget them. */
    method CancelCandidates()
      requires FlagsTell()
      modifies `candidates, `cancelled, issued.Values
      ensures FlagsTell()
      ensures candidates == map[] && cancelled == old(cancelled) + LinksOf(old(candidates), old(candidates).Keys)
    {
      hide FlagsOk;
      RaiseAll(issued, candidates, cancelled, nextLink);
      FlagsKept(issued, candidates, map[], cancelled + LinksOf(candidates, candidates.Keys), nextLink);
      cancelled, candidates := cancelled + LinksOf(candidates, candidates.Keys), map[];
    }

    ghost function Budget(): LeafSpec.Budget
      reads this
    {
      LeafSpec.Budget(window, admitted)
    }

    /** Counts this search in and says whether it is within the window's budget. */
    method AdmitSearch(now: nat) returns (yes: bool)
      modifies this`window, this`admitted
      ensures (yes, Budget()) == Admit(old(Budget()), now)
    {
      if Elapsed(now, window) >= SECOND {
        window, admitted := now, 0;
      }
      admitted := admitted + 1;
      yes := admitted <= SEARCH_BUDGET;
    }
  }

  function LinksOf(m: map<string, Sounding>, users: set<string>): set<nat> {
    set u | u in users && u in m :: m[u].link
  }

  lemma LinksAbs(m: map<string, Sounding>)
    ensures LinksOf(m, m.Keys) == Links(Abs(m))
  {
  }

  /** The dials are for these offers, in order, with consecutive links and the flags issued for them. */
  ghost predicate DialsOk(dials: seq<Dial>, offers: seq<Offer>, first: nat, issued: map<nat, CancelFlag>) {
    && |dials| == |offers|
    && forall i :: 0 <= i < |dials| ==>
         && dials[i] == ToDial(offers[i], first + i, dials[i].cancel)
         && dials[i].link in issued && issued[dials[i].link] == dials[i].cancel
  }

  ghost predicate Grown(before: map<nat, CancelFlag>, after: map<nat, CancelFlag>) {
    forall l :: l in before ==> l in after && after[l] == before[l]
  }

  lemma NoDials(first: nat, issued: map<nat, CancelFlag>)
    ensures DialsOk([], [], first, issued) && Grown(issued, issued)
  {
  }

  lemma DialsSnoc(
    start: map<nat, CancelFlag>, issued: map<nat, CancelFlag>, dials: seq<Dial>, offers: seq<Offer>,
    first: nat, d: Dial, o: Offer)
    requires Grown(start, issued) && DialsOk(dials, offers, first, issued)
    requires d == ToDial(o, first + |offers|, d.cancel) && d.link !in issued
    ensures Grown(start, issued[d.link := d.cancel])
    ensures DialsOk(dials + [d], offers + [o], first, issued[d.link := d.cancel])
  {
  }

  lemma CancelledBelow(issued: map<nat, CancelFlag>, m: map<string, Sounding>, cancelled: set<nat>, nextLink: nat)
    requires FlagsOk(issued, m, cancelled, nextLink)
    ensures forall l :: l in cancelled ==> l < nextLink
  {
  }

  /** The flags of new links are down. */
  lemma NoneRaised(
    dials: seq<Dial>, offers: seq<Offer>, first: nat,
    issued: map<nat, CancelFlag>, m: map<string, Sounding>, cancelled: set<nat>, nextLink: nat)
    requires FlagsOk(issued, m, cancelled, nextLink) && DialsOk(dials, offers, first, issued)
    requires forall l :: l in cancelled ==> l < first
    ensures forall d :: d in dials ==> !d.cancel.raised
  {
  }

  lemma DialledStep(offers: seq<Offer>, k: nat, known: set<string>)
    requires k < |offers|
    ensures Dialled(offers[k..], known) ==
            if offers[k].username in known || |known| >= MAX_CANDIDATES then Dialled(offers[k + 1..], known)
            else [offers[k]] + Dialled(offers[k + 1..], known + {offers[k].username})
  {
    assert offers[k..][1..] == offers[k + 1..];
  }

  lemma NotIssued(issued: map<nat, CancelFlag>, m: map<string, Sounding>, cancelled: set<nat>, nextLink: nat)
    requires FlagsOk(issued, m, cancelled, nextLink)
    ensures nextLink !in issued
  {
  }

  function ToDial(o: Offer, link: nat, cancel: CancelFlag): Dial {
    Dial(link, o.username, o.host, o.port, cancel)
  }

  function Announced(n: Option<Notice>): Option<Branch> {
    if n.Some? then Some(n.value.branch) else None
  }

  lemma FreshHolds(own: string)
    ensures Inv(Fresh(own))
  {
  }

  function IssueOne(v: View, u: string): View {
    v.(candidates := v.candidates[u := Candidate(v.nextLink, None, None)], nextLink := v.nextLink + 1)
  }

  lemma {:induction false} IssueSnoc(v: View, done: seq<Offer>, o: Offer)
    ensures Issue(v, done + [o]) == IssueOne(Issue(v, done), o.username)
    decreases |done|
  {
    if done == [] {
      assert (done + [o])[1..] == [];
    } else {
      var w := v.(candidates := v.candidates[done[0].username := Candidate(v.nextLink, None, None)],
                  nextLink := v.nextLink + 1);
      assert (done + [o])[1..] == done[1..] + [o];
      IssueSnoc(w, done[1..], o);
    }
  }
}
