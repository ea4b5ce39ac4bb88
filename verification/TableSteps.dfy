/**
 Every operation on the download table row by row: which rows go, what becomes of the
 status of each of the others, what comes at the end, and what the caller hears.
 */
module TableSteps {
  import opened Wrappers
  import opened DownloadSpec

  predicate Ended(s: Status) {
    s == Completed || s == Cancelled || s == Failed || s == TimedOut
  }

  /** Row `j` is the first of this file of this peer. */
  ghost predicate FirstOfFile(rows: seq<Download>, j: nat, username: string, filename: string) {
    && j < |rows| && rows[j].username == username && rows[j].filename == filename
    && forall k :: 0 <= k < j ==> rows[k].username != username || rows[k].filename != filename
  }

  ghost predicate FirstOfToken(rows: seq<Download>, j: nat, token: nat) {
    j < |rows| && rows[j].token == token && forall k :: 0 <= k < j ==> rows[k].token != token
  }

  ghost predicate QueuedFor(rows: seq<Download>, j: nat, username: string) {
    j < |rows| && rows[j].username == username && rows[j].status == Queued
  }

  /** The status of row `j` after the operation, if the row does not go. */
  ghost function Becomes(rows: seq<Download>, j: nat, e: Event): Status
    requires j < |rows|
  {
    var s := rows[j].status;
    match e
    case Updating(t, status) =>
      if FirstOfToken(rows, j, t) && !Ended(s) && !(s.Paused? && status.InProgress?) then status else s
    case Claiming(t, u) =>
      if FirstOfToken(rows, j, t) && rows[j].username == u && s == Queued then InProgress(0, rows[j].size) else s
    case Cancelling(u, f) => if FirstOfFile(rows, j, u, f) && !Ended(s) then Cancelled else s
    case Pausing(u, f) => if FirstOfFile(rows, j, u, f) && s.InProgress? then Paused(s.bytes, s.total) else s
    case Resuming(u, f) => if FirstOfFile(rows, j, u, f) && s.Paused? then InProgress(s.bytes, s.total) else s
    case FailingQueue(u) =>
      if FirstOfToken(rows, j, rows[j].token) && !Ended(s)
         && (exists k: nat :: QueuedFor(rows, k, u) && rows[k].token == rows[j].token)
      then Failed else s
    case _ => s
  }

  /** Row `i` is the one that a transfer request under the peer's own token is for. */
  ghost predicate Rekeyed(rows: seq<Download>, i: nat, e: Event) {
    e.Rekeying? && FirstOfFile(rows, i, e.username, e.filename) && rows[i].status != Cancelled
  }

  /** The operation takes row `j` out. */
  ghost predicate Goes(rows: seq<Download>, j: nat, e: Event)
    requires j < |rows|
  {
    var d := rows[j];
    match e
    case Adding(new_) => Ended(d.status) && d.username == new_.username && d.filename == new_.filename
    case Removing(t) => d.token == t
    case Forgetting(u, f) => d.username == u && d.filename == f
    case RemovingQueued(u, f) =>
      && d.filename == f && QueuedFor(rows, j, u)
      && forall k: nat :: k < j && QueuedFor(rows, k, u) ==> rows[k].filename != f
    case Rekeying(u, f, _, _) =>
      exists i: nat ::
        Rekeyed(rows, i, e) && (rows[i].token == d.token || (Ended(d.status) && d.username == u && d.filename == f))
    case _ => false
  }

  /** `d` comes to the end of the table. */
  ghost predicate Comes(rows: seq<Download>, d: Download, e: Event) {
    || (e.Adding? && d == e.d)
    || (e.Rekeying? && (exists i: nat :: Rekeyed(rows, i, e) && rows[i].token != e.token
                                       && d == rows[i].(token := e.token, size := e.size)))
  }

  /** `ix` counts through the first `n` indices, leaving out those of the rows that go. */
  ghost predicate Stay(ix: seq<nat>, rows: seq<Download>, e: Event) {
    && (forall a, b :: 0 <= a < b < |ix| ==> ix[a] < ix[b])
    && (forall a :: 0 <= a < |ix| ==> ix[a] < |rows| && !Goes(rows, ix[a], e))
    && (forall j: nat :: j < |rows| && !Goes(rows, j, e) ==> j in ix)
  }

  /** The rows that stay, in their order and each with its new status, and then the one that comes. */
  ghost predicate After(rows: seq<Download>, e: Event, w: seq<Download>, ix: seq<nat>) {
    && Stay(ix, rows, e) && |ix| <= |w| <= |ix| + 1
    && (forall a :: 0 <= a < |ix| ==> w[a] == rows[ix[a]].(status := Becomes(rows, ix[a], e)))
    && (|w| == |ix| + 1 ==> Comes(rows, w[|ix|], e))
    && (forall d :: Comes(rows, d, e) ==> |w| == |ix| + 1)
  }

  // ---- The rows that are kept ----

  /** `ix` counts through the indices of the rows that `keep` holds of. */
  ghost predicate Picked(ix: seq<nat>, rows: seq<Download>, keep: Download -> bool) {
    && (forall a, b :: 0 <= a < b < |ix| ==> ix[a] < ix[b])
    && (forall a :: 0 <= a < |ix| ==> ix[a] < |rows| && keep(rows[ix[a]]))
    && (forall j: nat :: j < |rows| && keep(rows[j]) ==> j in ix)
  }

  ghost predicate PickedAre(ix: seq<nat>, rows: seq<Download>, w: seq<Download>) {
    |w| == |ix| && forall a :: 0 <= a < |ix| ==> ix[a] < |rows| && w[a] == rows[ix[a]]
  }

  lemma {:induction false} RetainPicks(rows: seq<Download>, keep: Download -> bool) returns (ix: seq<nat>)
    ensures Picked(ix, rows, keep) && PickedAre(ix, rows, Retain(rows, keep))
  {
    hide Picked, PickedAre;
    ix := [];
    if rows != [] {
      var n := |rows| - 1;
      ix := RetainPicks(rows[..n], keep);
      assert rows[..n] + [rows[n]] == rows;
      if keep(rows[n]) {
        PickLast(ix, rows[..n], rows[n], keep, Retain(rows[..n], keep));
        ix := ix + [n];
      } else {
        PickOther(ix, rows[..n], rows[n], keep, Retain(rows[..n], keep));
        assert Retain(rows[..n], keep) + [] == Retain(rows[..n], keep);
      }
    } else {
      PickNone(keep);
    }
  }

  lemma PickNone(keep: Download -> bool)
    ensures Picked([], [], keep) && PickedAre([], [], [])
  {
  }

  lemma PickLast(ix: seq<nat>, front: seq<Download>, d: Download, keep: Download -> bool, w: seq<Download>)
    requires keep(d) && Picked(ix, front, keep) && PickedAre(ix, front, w)
    ensures Picked(ix + [|front|], front + [d], keep) && PickedAre(ix + [|front|], front + [d], w + [d])
  {
    var rows, more := front + [d], ix + [|front|];
    forall j: nat | j < |rows| && keep(rows[j])
      ensures j in more
    {
      if j < |front| {
        assert front[j] == rows[j];
      } else {
        assert more[|ix|] == j;
      }
    }
    forall a | 0 <= a < |ix|
      ensures more[a] == ix[a] < |front| && keep(rows[ix[a]]) && rows[ix[a]] == w[a]
    {
      assert rows[ix[a]] == front[ix[a]];
    }
  }

  lemma PickOther(ix: seq<nat>, front: seq<Download>, d: Download, keep: Download -> bool, w: seq<Download>)
    requires !keep(d) && Picked(ix, front, keep) && PickedAre(ix, front, w)
    ensures Picked(ix, front + [d], keep) && PickedAre(ix, front + [d], w)
  {
    var rows := front + [d];
    forall j: nat | j < |rows| && keep(rows[j])
      ensures j in ix
    {
      assert front[j] == rows[j];
    }
    forall a | 0 <= a < |ix|
      ensures ix[a] < |front| && keep(rows[ix[a]]) && rows[ix[a]] == w[a]
    {
      assert rows[ix[a]] == front[ix[a]];
    }
  }

  lemma {:induction false} RetainTwice(
    rows: seq<Download>, one: Download -> bool, two: Download -> bool, both: Download -> bool)
    requires forall x :: both(x) <==> one(x) && two(x)
    ensures Retain(Retain(rows, one), two) == Retain(rows, both)
  {
    if rows != [] {
      var n := |rows| - 1;
      RetainTwice(rows[..n], one, two, both);
      RetainSnoc(Retain(rows[..n], one), rows[n], two);
      assert Retain(rows[..n], one) + [] == Retain(rows[..n], one);
      assert Retain(rows[..n], both) + [] == Retain(rows[..n], both);
    }
  }

  lemma RetainSnoc(rows: seq<Download>, d: Download, keep: Download -> bool)
    ensures Retain(rows + [d], keep) == Retain(rows, keep) + (if keep(d) then [d] else [])
  {
    assert (rows + [d])[..|rows|] == rows;
  }

  /** The rows picked are those that stay, and nothing becomes of them. */
  lemma PickedAfter(rows: seq<Download>, e: Event, keep: Download -> bool, ix: seq<nat>, more: seq<Download>)
    requires Picked(ix, rows, keep) && PickedAre(ix, rows, Retain(rows, keep)) && |more| <= 1
    requires forall j: nat :: j < |rows| ==> (Goes(rows, j, e) <==> !keep(rows[j])) && Becomes(rows, j, e) == rows[j].status
    requires forall d :: Comes(rows, d, e) <==> more == [d]
    ensures After(rows, e, Retain(rows, keep) + more, ix)
  {
    hide Goes, Becomes, Comes, Retain, Picked, PickedAre, After;
    PickedStay(ix, rows, e, keep);
    PickedSame(ix, rows, e, Retain(rows, keep));
    hide Stay;
    Followed(rows, e, Retain(rows, keep), ix, more);
  }

  lemma Followed(rows: seq<Download>, e: Event, w: seq<Download>, ix: seq<nat>, more: seq<Download>)
    requires Stay(ix, rows, e) && |w| == |ix| && |more| <= 1
    requires forall a :: 0 <= a < |ix| ==> w[a] == rows[ix[a]].(status := Becomes(rows, ix[a], e))
    requires forall d :: Comes(rows, d, e) <==> more == [d]
    ensures After(rows, e, w + more, ix)
  {
    hide Goes, Becomes, Comes;
    assert |more| == 1 ==> more == [more[0]];
  }

  lemma PickedStay(ix: seq<nat>, rows: seq<Download>, e: Event, keep: Download -> bool)
    requires Picked(ix, rows, keep)
    requires forall j: nat :: j < |rows| ==> (Goes(rows, j, e) <==> !keep(rows[j]))
    ensures Stay(ix, rows, e)
  {
    hide Goes;
  }

  lemma PickedSame(ix: seq<nat>, rows: seq<Download>, e: Event, w: seq<Download>)
    requires PickedAre(ix, rows, w)
    requires forall j: nat :: j < |rows| ==> Becomes(rows, j, e) == rows[j].status
    ensures |w| == |ix|
    ensures forall a :: 0 <= a < |ix| ==>
      ix[a] < |rows| && w[a] == rows[ix[a]] == rows[ix[a]].(status := Becomes(rows, ix[a], e))
  {
    hide Becomes;
  }

  lemma AddAfter(rows: seq<Download>, d: Download) returns (ix: seq<nat>)
    ensures After(rows, Adding(d), Add(rows, d), ix)
  {
    var keep := (x: Download) => !(x.status.Terminal() && Matches(x, d.username, d.filename));
    ix := RetainPicks(rows, keep);
    hide Picked, PickedAre, Retain, After;
    PickedAfter(rows, Adding(d), keep, ix, [d]);
  }

  lemma RetainAfter(rows: seq<Download>, keep: Download -> bool, e: Event) returns (ix: seq<nat>)
    requires e.Removing? || e.Forgetting?
    requires forall x :: keep(x) <==>
      if e.Removing? then x.token != e.token else !(x.username == e.username && x.filename == e.filename)
    ensures After(rows, e, Retain(rows, keep), ix)
  {
    ix := RetainPicks(rows, keep);
    hide Picked, PickedAre, Retain, After;
    PickedAfter(rows, e, keep, ix, []);
    assert Retain(rows, keep) + [] == Retain(rows, keep);
  }

  lemma RemoveAfter(rows: seq<Download>, token: nat) returns (ix: seq<nat>)
    ensures After(rows, Removing(token), Remove(rows, token), ix)
  {
    hide After, Retain;
    ix := RetainAfter(rows, (x: Download) => x.token != token, Removing(token));
  }

  lemma ForgetAfter(rows: seq<Download>, u: string, f: string) returns (ix: seq<nat>)
    ensures After(rows, Forgetting(u, f), RemoveByFile(rows, u, f), ix)
  {
    hide After, Retain;
    ix := RetainAfter(rows, (x: Download) => !Matches(x, u, f), Forgetting(u, f));
  }

  lemma FirstOfFileIs(rows: seq<Download>, username: string, filename: string)
    ensures forall i: nat :: FirstOfFile(rows, i, username, filename) <==> ByFile(rows, username, filename) == Some(i)
  {
  }

  lemma FirstOfTokenIs(rows: seq<Download>, token: nat)
    ensures forall i: nat :: FirstOfToken(rows, i, token) <==> ByToken(rows, token) == Some(i)
  {
  }

  lemma RekeyAfter(rows: seq<Download>, e: Event) returns (ix: seq<nat>)
    requires e.Rekeying?
    ensures After(rows, e, Step(rows, e), ix)
  {
    hide After, Retain;
    FirstOfFileIs(rows, e.username, e.filename);
    var r := ByFile(rows, e.username, e.filename);
    if r.None? || rows[r.value].status == Cancelled {
      ix := NoneAfter(rows, e);
    } else {
      ix := MovedAfter(rows, e, r.value);
    }
  }

  lemma NoneAfter(rows: seq<Download>, e: Event) returns (ix: seq<nat>)
    requires forall j: nat :: j < |rows| ==> !Goes(rows, j, e) && Becomes(rows, j, e) == rows[j].status
    requires forall d :: !Comes(rows, d, e)
    ensures After(rows, e, rows, ix)
  {
    ix := Everyone(rows, e);
    hide Goes, Becomes, Comes, Stay;
  }

  lemma Everyone(rows: seq<Download>, e: Event) returns (ix: seq<nat>)
    requires forall j: nat :: j < |rows| ==> !Goes(rows, j, e)
    ensures |ix| == |rows| && Stay(ix, rows, e) && forall j: nat :: j < |rows| ==> ix[j] == j
  {
    hide Goes;
    ix := seq(|rows|, j => j);
    forall j: nat | j < |rows|
      ensures j in ix
    {
      assert ix[j] == j;
    }
  }

  lemma MovedAfter(rows: seq<Download>, e: Event, i: nat) returns (ix: seq<nat>)
    requires e.Rekeying? && ByFile(rows, e.username, e.filename) == Some(i) && rows[i].status != Cancelled
    ensures After(rows, e, Step(rows, e), ix)
  {
    hide After, Retain, Picked, PickedAre;
    FirstOfFileIs(rows, e.username, e.filename);
    var d := rows[i].(token := e.token, size := e.size);
    var live := (x: Download) => !(x.status.Terminal() && Matches(x, d.username, d.filename));
    var other := (x: Download) => x.token != rows[i].token;
    var keep := x => live(x) && other(x);
    RetainTwice(rows, live, other, keep);
    RetainSnoc(Retain(rows, live), d, other);
    ix := RetainPicks(rows, keep);
    assert Rekeyed(rows, i, e);
    PickedAfter(rows, e, keep, ix, if other(d) then [d] else []);
  }

  lemma CutAfter(rows: seq<Download>, u: string, f: string) returns (ix: seq<nat>)
    ensures After(rows, RemovingQueued(u, f), RemoveQueued(rows, u, f).0, ix)
  {
    var e := RemovingQueued(u, f);
    var r := FirstQueued(rows, u, f);
    if r.None? {
      hide After;
      ix := NoneAfter(rows, e);
    } else {
      var i := r.value;
      ix := seq(|rows| - 1, j => if j < i then j else j + 1);
      assert forall j: nat :: j < |rows| ==> (Goes(rows, j, e) <==> j == i);
      CutIs(rows, e, ix, i);
    }
  }

  lemma CutIs(rows: seq<Download>, e: Event, ix: seq<nat>, i: nat)
    requires e.RemovingQueued? && i < |rows| && |ix| == |rows| - 1
    requires forall j :: 0 <= j < |ix| ==> ix[j] == if j < i then j else j + 1
    requires forall j: nat :: j < |rows| ==> (Goes(rows, j, e) <==> j == i)
    ensures After(rows, e, rows[..i] + rows[i + 1..], ix)
  {
    hide Goes;
    forall j: nat | j < |rows| && j != i
      ensures j in ix
    {
      assert ix[if j < i then j else j - 1] == j;
    }
  }

  // ---- The rows that change ----

  /** An operation that only writes statuses. */
  predicate Writes(e: Event) {
    e.Updating? || e.Claiming? || e.Cancelling? || e.Pausing? || e.Resuming? || e.FailingQueue?
  }

  lemma AllAfter(rows: seq<Download>, e: Event) returns (ix: seq<nat>)
    requires Writes(e)
    ensures After(rows, e, Step(rows, e), ix)
  {
    EachRow(rows, e);
    ix := Everyone(rows, e);
    hide Step, Becomes, Stay;
  }

  lemma EachRow(rows: seq<Download>, e: Event)
    requires Writes(e)
    ensures var w := Step(rows, e);
            |w| == |rows| && forall j :: 0 <= j < |rows| ==> w[j] == rows[j].(status := Becomes(rows, j, e))
  {
    match e
    case FailingQueue(u) => QueueRows(rows, u);
    case Updating(t, _) => FirstOfTokenIs(rows, t);
    case Claiming(t, _) => FirstOfTokenIs(rows, t);
    case Cancelling(u, f) => FirstOfFileIs(rows, u, f);
    case Pausing(u, f) => FirstOfFileIs(rows, u, f);
    case Resuming(u, f) => FirstOfFileIs(rows, u, f);
  }

  lemma {:induction false} FailRows(rows: seq<Download>, tokens: seq<nat>)
    ensures forall j :: 0 <= j < |rows| ==>
      FailAll(rows, tokens)[j] == rows[j].(status :=
        if FirstOfToken(rows, j, rows[j].token) && !Ended(rows[j].status) && rows[j].token in tokens
        then Failed else rows[j].status)
  {
    if tokens != [] {
      var n := |tokens| - 1;
      FailRows(rows, tokens[..n]);
      assert tokens == tokens[..n] + [tokens[n]];
      FirstOfTokenIs(FailAll(rows, tokens[..n]), tokens[n]);
    }
  }

  lemma QueuedTokens(rows: seq<Download>, u: string, token: nat)
    ensures token in DoomedTokens(rows, u) <==> exists k: nat :: QueuedFor(rows, k, u) && rows[k].token == token
  {
    DoomedIs(rows, u, token);
    assert forall k: nat :: k < |rows| ==> (QueuedFor(rows, k, u) <==> Doomed(rows[k], u));
  }

  lemma QueueRows(rows: seq<Download>, u: string)
    ensures var w := FailQueued(rows, u);
            forall j :: 0 <= j < |rows| ==> w[j] == rows[j].(status := Becomes(rows, j, FailingQueue(u)))
  {
    FailRows(rows, DoomedTokens(rows, u));
    hide FailAll, DoomedTokens, FirstOfToken, Ended;
    forall j | 0 <= j < |rows|
      ensures rows[j].token in DoomedTokens(rows, u) <==>
              exists k: nat :: QueuedFor(rows, k, u) && rows[k].token == rows[j].token
    {
      QueuedTokens(rows, u, rows[j].token);
    }
  }

  /** What any operation makes of any table. */
  lemma TableAfter(rows: seq<Download>, e: Event)
    ensures exists ix :: After(rows, e, Step(rows, e), ix)
  {
    hide After, Becomes, Goes, Retain;
    var ix: seq<nat>;
    match e {
      case Adding(d) => ix := AddAfter(rows, d);
      case Removing(t) => ix := RemoveAfter(rows, t);
      case Forgetting(u, f) => ix := ForgetAfter(rows, u, f);
      case RemovingQueued(u, f) => ix := CutAfter(rows, u, f);
      case Rekeying(_, _, _, _) => ix := RekeyAfter(rows, e);
      case _ => ix := AllAfter(rows, e);
    }
    assert After(rows, e, Step(rows, e), ix);
  }

  // ---- What the caller hears ----

  /**
   Of the first row for the file: a cancel hands it over, cancelled, unless it had
   ended; a pause answers whether it is paused now, a resume whether it is in progress.
   */
  lemma FileAnswers(rows: seq<Download>, j: nat, u: string, f: string)
    requires FirstOfFile(rows, j, u, f)
    ensures Cancel(rows, u, f).1 == if Ended(rows[j].status) then None else Some(rows[j].(status := Cancelled))
    ensures var w := Step(rows, Pausing(u, f));
            |w| == |rows| && (Pause(rows, u, f).1 <==> w[j].status.Paused?)
    ensures var w := Step(rows, Resuming(u, f));
            |w| == |rows| && (Resume(rows, u, f).1 <==> w[j].status.InProgress?)
  {
    FirstOfFileIs(rows, u, f);
  }

  /** Of the first row with the token: whether an update is taken, and to whom a claim hands it. */
  lemma TokenAnswers(rows: seq<Download>, j: nat, token: nat, status: Status, u: string)
    requires FirstOfToken(rows, j, token)
    ensures var s := rows[j].status;
            UpdateStatus(rows, token, status).1 <==> !Ended(s) && !(s.Paused? && status.InProgress?)
    ensures Claim(rows, token, u).1 ==
            if rows[j].username == u && rows[j].status == Queued
            then Some(rows[j].(status := InProgress(0, rows[j].size))) else None
  {
    FirstOfTokenIs(rows, token);
  }

  /** Where there is no such row, nothing is done and the answer says so. */
  lemma NobodyAnswers(rows: seq<Download>, token: nat, status: Status, u: string, f: string)
    ensures (forall j: nat :: !FirstOfFile(rows, j, u, f)) ==>
              Cancel(rows, u, f).1.None? && !Pause(rows, u, f).1 && !Resume(rows, u, f).1
    ensures (forall j: nat :: !FirstOfToken(rows, j, token)) ==>
              !UpdateStatus(rows, token, status).1 && Claim(rows, token, u).1.None?
    ensures RemoveQueued(rows, u, f).1 <==> exists j: nat :: QueuedFor(rows, j, u) && rows[j].filename == f
  {
    FirstOfFileIs(rows, u, f);
    FirstOfTokenIs(rows, token);
    var r := FirstQueued(rows, u, f);
    if r.Some? {
      assert QueuedFor(rows, r.value, u);
    }
  }
}
