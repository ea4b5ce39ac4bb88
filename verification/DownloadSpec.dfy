/**
 The download table as a state machine: what each lock-held operation does to
 the rows, and what it says on the rows' channels. Speeds are left out of the
 statuses.
 */
module DownloadSpec {
  import opened Wrappers

  datatype Status =
    | Queued
    | InProgress(bytes: nat, total: nat)
    | Paused(bytes: nat, total: nat)
    | Completed
    | Cancelled
    | Failed
    | TimedOut
  {
    predicate Terminal() {
      Completed? || Cancelled? || Failed? || TimedOut?
    }
  }

  datatype Download = Download(username: string, filename: string, token: nat, size: nat, status: Status)

  /** What a row's channel was told. */
  datatype Notice = Notice(token: nat, status: Status)

  /** `update_status` on one row: refused once terminal, and for a paused row's progress. */
  predicate Accepts(from: Status, to: Status) {
    !from.Terminal() && !(from.Paused? && to.InProgress?)
  }

  predicate Matches(d: Download, username: string, filename: string) {
    d.username == username && d.filename == filename
  }

  /** The first row with this token. */
  function ByToken(rows: seq<Download>, token: nat): (r: Option<nat>)
    ensures r.Some? ==> r.value < |rows| && rows[r.value].token == token
    ensures r.Some? ==> forall i :: 0 <= i < r.value ==> rows[i].token != token
    ensures r.None? ==> forall i :: 0 <= i < |rows| ==> rows[i].token != token
  {
    if rows == [] then None
    else
      var n := |rows| - 1;
      var r := ByToken(rows[..n], token);
      if r.Some? then r else if rows[n].token == token then Some(n) else None
  }

  /** The first row for this file of this peer. */
  function ByFile(rows: seq<Download>, username: string, filename: string): (r: Option<nat>)
    ensures r.Some? ==> r.value < |rows| && Matches(rows[r.value], username, filename)
    ensures r.Some? ==> forall i :: 0 <= i < r.value ==> !Matches(rows[i], username, filename)
    ensures r.None? ==> forall i :: 0 <= i < |rows| ==> !Matches(rows[i], username, filename)
  {
    if rows == [] then None
    else
      var n := |rows| - 1;
      var r := ByFile(rows[..n], username, filename);
      if r.Some? then r else if Matches(rows[n], username, filename) then Some(n) else None
  }

  /** The rows for which `keep` holds, in order. */
  function Retain(rows: seq<Download>, keep: Download -> bool): (r: seq<Download>)
    ensures |r| <= |rows|
  {
    if rows == [] then []
    else
      var n := |rows| - 1;
      Retain(rows[..n], keep) + (if keep(rows[n]) then [rows[n]] else [])
  }

  // ---- Operations: the new rows, and the notice sent under the lock ----

  function Add(rows: seq<Download>, d: Download): seq<Download> {
    Retain(rows, (x: Download) => !(x.status.Terminal() && Matches(x, d.username, d.filename))) + [d]
  }

  function Remove(rows: seq<Download>, token: nat): seq<Download> {
    Retain(rows, (x: Download) => x.token != token)
  }

  function RemoveByFile(rows: seq<Download>, username: string, filename: string): seq<Download> {
    Retain(rows, (x: Download) => !Matches(x, username, filename))
  }

  function UpdateStatus(rows: seq<Download>, token: nat, status: Status): (seq<Download>, bool) {
    var r := ByToken(rows, token);
    if r.Some? && Accepts(rows[r.value].status, status)
    then (rows[r.value := rows[r.value].(status := status)], true)
    else (rows, false)
  }

  function Claim(rows: seq<Download>, token: nat, username: string): (seq<Download>, Option<Download>) {
    var r := ByToken(rows, token);
    if r.None? || rows[r.value].username != username || rows[r.value].status != Queued then (rows, None)
    else
      var d := rows[r.value].(status := InProgress(0, rows[r.value].size));
      (rows[r.value := d], Some(d))
  }

  function Cancel(rows: seq<Download>, username: string, filename: string): (seq<Download>, Option<Download>) {
    var r := ByFile(rows, username, filename);
    if r.None? || rows[r.value].status.Terminal() then (rows, None)
    else
      var d := rows[r.value].(status := Cancelled);
      (rows[r.value := d], Some(d))
  }

  /** The new rows, what the call returns, and the notice if the row changed. */
  function Pause(rows: seq<Download>, username: string, filename: string): (seq<Download>, bool, Option<Notice>) {
    var r := ByFile(rows, username, filename);
    if r.None? then (rows, false, None)
    else
      var d := rows[r.value];
      match d.status
      case InProgress(bytes, total) =>
        (rows[r.value := d.(status := Paused(bytes, total))], true, Some(Notice(d.token, Paused(bytes, total))))
      case Paused(_, _) => (rows, true, None)
      case _ => (rows, false, None)
  }

  function Resume(rows: seq<Download>, username: string, filename: string): (seq<Download>, bool, Option<Notice>) {
    var r := ByFile(rows, username, filename);
    if r.None? then (rows, false, None)
    else
      var d := rows[r.value];
      match d.status
      case Paused(bytes, total) =>
        (rows[r.value := d.(status := InProgress(bytes, total))], true, Some(Notice(d.token, InProgress(bytes, total))))
      case InProgress(_, _) => (rows, true, None)
      case _ => (rows, false, None)
  }

  function RemoveQueued(rows: seq<Download>, username: string, filename: string): (seq<Download>, bool) {
    var r := FirstQueued(rows, username, filename);
    if r.None? then (rows, false) else (rows[..r.value] + rows[r.value + 1..], true)
  }

  function FirstQueued(rows: seq<Download>, username: string, filename: string): (r: Option<nat>)
    ensures r.Some? ==>
              && r.value < |rows| && Matches(rows[r.value], username, filename) && rows[r.value].status == Queued
              && forall i :: 0 <= i < r.value ==> !(Matches(rows[i], username, filename) && rows[i].status == Queued)
    ensures r.None? ==> forall i :: 0 <= i < |rows| ==> !(Matches(rows[i], username, filename) && rows[i].status == Queued)
  {
    if rows == [] then None
    else
      var n := |rows| - 1;
      var r := FirstQueued(rows[..n], username, filename);
      if r.Some? then r else if Matches(rows[n], username, filename) && rows[n].status == Queued then Some(n) else None
  }

  predicate Doomed(d: Download, username: string) {
    d.username == username && d.status == Queued
  }

  /** The tokens of the rows still queued for this peer, as they are listed. */
  function DoomedTokens(rows: seq<Download>, username: string): seq<nat> {
    if rows == [] then []
    else
      var n := |rows| - 1;
      DoomedTokens(rows[..n], username) + (if Doomed(rows[n], username) then [rows[n].token] else [])
  }

  /** The row that each of these tokens finds is failed, in turn. */
  function FailAll(rows: seq<Download>, tokens: seq<nat>): (r: seq<Download>)
    ensures |r| == |rows|
  {
    if tokens == [] then rows
    else UpdateStatus(FailAll(rows, tokens[..|tokens| - 1]), tokens[|tokens| - 1], Failed).0
  }

  /** `fail_queued_downloads`: the peer's queued rows are listed, then failed by their tokens. */
  function FailQueued(rows: seq<Download>, username: string): seq<Download> {
    FailAll(rows, DoomedTokens(rows, username))
  }

  /**
   A transfer request that came under the peer's own token: the row of its file, if
   there is one that was not cancelled, is added again under that token and with
   the size asked, and then the rows with the token it had are removed.
   */
  function Rekey(rows: seq<Download>, username: string, filename: string, token: nat, size: nat): seq<Download> {
    var r := ByFile(rows, username, filename);
    if r.None? || rows[r.value].status == Cancelled then rows
    else Remove(Add(rows, rows[r.value].(token := token, size := size)), rows[r.value].token)
  }

  // ---- Runs ----

  datatype Event =
    | Adding(d: Download)
    | Removing(token: nat)
    | Updating(token: nat, status: Status)
    | Claiming(token: nat, username: string)
    | Cancelling(username: string, filename: string)
    | Pausing(username: string, filename: string)
    | Resuming(username: string, filename: string)
    | RemovingQueued(username: string, filename: string)
    | Forgetting(username: string, filename: string)
    | FailingQueue(username: string)
    | Rekeying(username: string, filename: string, token: nat, size: nat)

  function Step(rows: seq<Download>, e: Event): seq<Download> {
    match e
    case Adding(d) => Add(rows, d)
    case Removing(token) => Remove(rows, token)
    case Updating(token, status) => UpdateStatus(rows, token, status).0
    case Claiming(token, username) => Claim(rows, token, username).0
    case Cancelling(u, f) => Cancel(rows, u, f).0
    case Pausing(u, f) => Pause(rows, u, f).0
    case Resuming(u, f) => Resume(rows, u, f).0
    case RemovingQueued(u, f) => RemoveQueued(rows, u, f).0
    case Forgetting(u, f) => RemoveByFile(rows, u, f)
    case FailingQueue(u) => FailQueued(rows, u)
    case Rekeying(u, f, token, size) => Rekey(rows, u, f, token, size)
  }

  function Run(rows: seq<Download>, events: seq<Event>): seq<Download> {
    if events == [] then rows else Step(Run(rows, events[..|events| - 1]), events[|events| - 1])
  }

  /** The row's status as its token finds it, if it is still there. */
  function StatusOf(rows: seq<Download>, token: nat): Option<Status> {
    var r := ByToken(rows, token);
    if r.Some? then Some(rows[r.value].status) else None
  }

  /** No two rows have this token. */
  predicate Once(rows: seq<Download>, token: nat) {
    forall i, j :: 0 <= i < j < |rows| && rows[i].token == token ==> rows[j].token != token
  }

  predicate HasToken(rows: seq<Download>, token: nat) {
    exists i :: 0 <= i < |rows| && rows[i].token == token
  }

  /** The operation puts a row under this token: a new one, or one that the peer gave it to. */
  predicate Brings(e: Event, token: nat) {
    (e.Adding? && e.d.token == token) || (e.Rekeying? && e.token == token)
  }

  predicate Brought(events: seq<Event>, token: nat) {
    exists i :: 0 <= i < |events| && Brings(events[i], token)
  }

  /**
   A row comes under this token once at most. Our own tokens are from a counter, but
   those of transfer requests are the peer's to choose.
   */
  predicate BroughtOnce(rows: seq<Download>, events: seq<Event>, token: nat) {
    && (HasToken(rows, token) ==> !Brought(events, token))
    && (forall i, j :: 0 <= i < j < |events| && Brings(events[i], token) ==> !Brings(events[j], token))
  }

  /** Nobody writes `Queued` back into a row. */
  predicate NeverRequeued(events: seq<Event>) {
    forall i :: 0 <= i < |events| && events[i].Updating? ==> events[i].status != Queued
  }

  // ---- One step and one token ----

  lemma {:induction false} RetainIs(rows: seq<Download>, keep: Download -> bool)
    ensures forall x :: x in Retain(rows, keep) <==> x in rows && keep(x)
  {
    if rows != [] {
      var n := |rows| - 1;
      RetainIs(rows[..n], keep);
      assert rows == rows[..n] + [rows[n]];
    }
  }

  lemma {:induction false} RetainOnce(rows: seq<Download>, keep: Download -> bool, token: nat)
    requires Once(rows, token)
    ensures Once(Retain(rows, keep), token)
  {
    if rows != [] {
      var n := |rows| - 1;
      RetainOnce(rows[..n], keep, token);
      RetainIs(rows[..n], keep);
      var front := Retain(rows[..n], keep);
      forall i | 0 <= i < |front| && front[i].token == token
        ensures rows[n].token != token
      {
        assert front[i] in rows[..n];
      }
    }
  }

  lemma StatusIs(rows: seq<Download>, d: Download)
    requires Once(rows, d.token) && d in rows
    ensures StatusOf(rows, d.token) == Some(d.status)
  {
    var i :| 0 <= i < |rows| && rows[i] == d;
    assert ByToken(rows, d.token).Some?;
  }

  /** The row a token finds is in the table. */
  lemma RowOf(rows: seq<Download>, token: nat) returns (d: Download)
    requires StatusOf(rows, token).Some?
    ensures d in rows && d.token == token && StatusOf(rows, token) == Some(d.status)
  {
    d := rows[ByToken(rows, token).value];
  }

  /** Dropping rows changes no status that is still found. */
  lemma RetainStatus(rows: seq<Download>, keep: Download -> bool, token: nat)
    requires Once(rows, token)
    ensures var s := StatusOf(Retain(rows, keep), token); s.None? || s == StatusOf(rows, token)
  {
    RetainIs(rows, keep);
    if StatusOf(Retain(rows, keep), token).Some? {
      var d := RowOf(Retain(rows, keep), token);
      StatusIs(rows, d);
    }
  }

  lemma ReplaceStatus(rows: seq<Download>, i: nat, d: Download, token: nat)
    requires Once(rows, token) && i < |rows| && d.token == rows[i].token
    ensures Once(rows[i := d], token)
    ensures StatusOf(rows[i := d], token) == if token == d.token then Some(d.status) else StatusOf(rows, token)
  {
    var w := rows[i := d];
    if token == d.token {
      assert w[i] == d;
      StatusIs(w, d);
    } else {
      var r, q := ByToken(rows, token), ByToken(w, token);
      if r.Some? {
        assert w[r.value] == rows[r.value];
      }
      if q.Some? {
        assert w[q.value] == rows[q.value];
      }
      assert r.Some? && q.Some? ==> !(r.value < q.value) && !(q.value < r.value);
    }
  }

  /** How one operation may change a row's status: never out of a terminal one. */
  predicate Changes(from: Status, to: Status, e: Event, token: nat) {
    && !from.Terminal()
    && match e
       case Updating(t, status) => t == token && to == status && !(from.Paused? && to.InProgress?)
       case Claiming(t, _) => t == token && from == Queued && to.InProgress? && to.bytes == 0
       case Cancelling(_, _) => to == Cancelled
       case Pausing(_, _) => from.InProgress? && to == Paused(from.bytes, from.total)
       case Resuming(_, _) => from.Paused? && to == InProgress(from.bytes, from.total)
       case FailingQueue(_) => from == Queued && to == Failed
       case _ => false
  }

  /** One operation on the row of `token`: it stays as it is, goes, or changes as allowed. */
  predicate Moves(before: Option<Status>, after: Option<Status>, e: Event, token: nat) {
    after.None? || before == after || (before.Some? && Changes(before.value, after.value, e, token))
  }

  lemma AppendKeeps(rows: seq<Download>, d: Download, token: nat)
    requires Once(rows, token) && token != d.token
    ensures Once(rows + [d], token) && StatusOf(rows + [d], token) == StatusOf(rows, token)
  {
    assert (rows + [d])[..|rows|] == rows;
  }

  lemma AddOn(rows: seq<Download>, d: Download, token: nat)
    requires Once(rows, token) && token != d.token
    ensures Once(Add(rows, d), token)
    ensures StatusOf(Add(rows, d), token).None? || StatusOf(Add(rows, d), token) == StatusOf(rows, token)
  {
    hide StatusOf;
    var keep := (x: Download) => !(x.status.Terminal() && Matches(x, d.username, d.filename));
    RetainOnce(rows, keep, token);
    RetainStatus(rows, keep, token);
    AppendKeeps(Retain(rows, keep), d, token);
  }

  lemma RemoveOn(rows: seq<Download>, t: nat, token: nat)
    requires Once(rows, token)
    ensures Once(Remove(rows, t), token)
    ensures StatusOf(Remove(rows, t), token).None? || StatusOf(Remove(rows, t), token) == StatusOf(rows, token)
  {
    RetainOnce(rows, (x: Download) => x.token != t, token);
    RetainStatus(rows, (x: Download) => x.token != t, token);
    hide StatusOf;
  }

  lemma RekeyOn(rows: seq<Download>, u: string, f: string, t: nat, size: nat, token: nat)
    requires Once(rows, token) && token != t
    ensures Once(Rekey(rows, u, f, t, size), token)
    ensures var s := StatusOf(Rekey(rows, u, f, t, size), token); s.None? || s == StatusOf(rows, token)
  {
    hide StatusOf, Add, Remove;
    var r := ByFile(rows, u, f);
    if r.Some? {
      var d := rows[r.value];
      AddOn(rows, d.(token := t, size := size), token);
      RemoveOn(Add(rows, d.(token := t, size := size)), d.token, token);
      if StatusOf(Add(rows, d.(token := t, size := size)), token).None? {
        NoneStays(Add(rows, d.(token := t, size := size)), d.token, token);
      }
    }
  }

  lemma NoneStays(rows: seq<Download>, t: nat, token: nat)
    requires Once(rows, token) && StatusOf(rows, token).None?
    ensures StatusOf(Remove(rows, t), token).None?
  {
    RetainStatus(rows, (x: Download) => x.token != t, token);
    hide StatusOf;
  }

  /** What any operation that brings no row under the token does to the token's row. */
  lemma StepOn(rows: seq<Download>, e: Event, token: nat)
    requires Once(rows, token) && !Brings(e, token)
    ensures Once(Step(rows, e), token)
    ensures Moves(StatusOf(rows, token), StatusOf(Step(rows, e), token), e, token)
  {
    hide StatusOf, Retain, FailQueued, Rekey, Add, Remove;
    match e
    case Adding(d) => AddOn(rows, d, token);
    case Removing(t) => RemoveOn(rows, t, token);
    case Forgetting(u, f) =>
      RetainOnce(rows, (x: Download) => !Matches(x, u, f), token);
      RetainStatus(rows, (x: Download) => !Matches(x, u, f), token);
    case RemovingQueued(u, f) =>
      var r := FirstQueued(rows, u, f);
      if r.Some? {
        CutStatus(rows, r.value, token);
      }
    case Updating(t, status) => TokenStep(rows, e, t, token);
    case Claiming(t, _) => TokenStep(rows, e, t, token);
    case Cancelling(u, f) => FileStep(rows, e, u, f, token);
    case Pausing(u, f) => FileStep(rows, e, u, f, token);
    case Resuming(u, f) => FileStep(rows, e, u, f, token);
    case FailingQueue(u) => FailQueuedOn(rows, u, token);
    case Rekeying(u, f, t, size) => RekeyOn(rows, u, f, t, size, token);
  }

  lemma RetainNoToken(rows: seq<Download>, keep: Download -> bool, token: nat)
    requires !HasToken(rows, token)
    ensures !HasToken(Retain(rows, keep), token)
  {
    RetainIs(rows, keep);
    var w := Retain(rows, keep);
    forall i | 0 <= i < |w|
      ensures w[i].token != token
    {
      assert w[i] in rows;
      var j :| 0 <= j < |rows| && rows[j] == w[i];
    }
  }

  lemma CutStatus(rows: seq<Download>, i: nat, token: nat)
    requires Once(rows, token) && i < |rows|
    ensures var w := rows[..i] + rows[i + 1..];
            && Once(w, token)
            && (StatusOf(w, token).None? || StatusOf(w, token) == StatusOf(rows, token))
  {
    var w := rows[..i] + rows[i + 1..];
    assert forall j :: 0 <= j < |w| ==> w[j] == rows[if j < i then j else j + 1];
    if StatusOf(w, token).Some? {
      var d := RowOf(w, token);
      assert d in rows;
      StatusIs(rows, d);
    }
  }

  lemma AtToken(rows: seq<Download>, i: nat, token: nat)
    requires Once(rows, token) && i < |rows| && rows[i].token == token
    ensures StatusOf(rows, token) == Some(rows[i].status)
  {
    assert rows[i] in rows;
    StatusIs(rows, rows[i]);
  }

  lemma TokenStep(rows: seq<Download>, e: Event, t: nat, token: nat)
    requires Once(rows, token) && (e.Updating? || e.Claiming?) && e.token == t
    ensures Once(Step(rows, e), token)
    ensures Moves(StatusOf(rows, token), StatusOf(Step(rows, e), token), e, token)
  {
    hide StatusOf;
    var r := ByToken(rows, t);
    if r.Some? {
      var i := r.value;
      if t == token {
        AtToken(rows, i, token);
      }
      ReplaceStatus(rows, i, Step(rows, e)[i], token);
      assert Step(rows, e) == rows[i := Step(rows, e)[i]];
    }
  }

  lemma FileStep(rows: seq<Download>, e: Event, u: string, f: string, token: nat)
    requires Once(rows, token) && (e.Cancelling? || e.Pausing? || e.Resuming?) && e.username == u && e.filename == f
    ensures Once(Step(rows, e), token)
    ensures Moves(StatusOf(rows, token), StatusOf(Step(rows, e), token), e, token)
  {
    hide StatusOf;
    var r := ByFile(rows, u, f);
    if r.Some? {
      var i := r.value;
      if rows[i].token == token {
        AtToken(rows, i, token);
      }
      ReplaceStatus(rows, i, Step(rows, e)[i], token);
      assert Step(rows, e) == rows[i := Step(rows, e)[i]];
    }
  }

  // ---- Whole runs ----

  lemma BroughtFront(rows: seq<Download>, events: seq<Event>, token: nat)
    requires BroughtOnce(rows, events, token) && events != []
    ensures var front := events[..|events| - 1];
            && BroughtOnce(rows, front, token)
            && (Brings(events[|events| - 1], token) ==> !HasToken(rows, token) && !Brought(front, token))
            && (Brought(front, token) ==> Brought(events, token))
  {
    var front := events[..|events| - 1];
    if Brought(front, token) {
      var i :| 0 <= i < |front| && Brings(front[i], token);
      assert events[i] == front[i];
    }
  }

  /** A token stays with one row, and is in the table only if it was there or was brought. */
  lemma {:induction false} RunKeeps(rows: seq<Download>, events: seq<Event>, token: nat)
    requires Once(rows, token) && BroughtOnce(rows, events, token)
    ensures Once(Run(rows, events), token)
    ensures !HasToken(rows, token) && !Brought(events, token) ==> !HasToken(Run(rows, events), token)
  {
    hide Step, Once, Brings, HasToken;
    if events != [] {
      var n := |events| - 1;
      var front, e := events[..n], events[n];
      BroughtFront(rows, events, token);
      RunKeeps(rows, front, token);
      if Brings(e, token) {
        BringOn(Run(rows, front), e, token);
      } else {
        NoneComes(Run(rows, front), e, token);
      }
    }
  }

  /** Nothing but bringing it puts a row under the token. */
  lemma NoneComes(rows: seq<Download>, e: Event, token: nat)
    requires Once(rows, token) && !Brings(e, token)
    ensures Once(Step(rows, e), token)
    ensures !HasToken(rows, token) ==> !HasToken(Step(rows, e), token)
  {
    StepOn(rows, e, token);
    NoTokenMeansNone(rows, token);
    NoTokenMeansNone(Step(rows, e), token);
    hide Step, StatusOf, HasToken, Once, Changes;
  }

  lemma NoTokenMeansNone(rows: seq<Download>, token: nat)
    ensures !HasToken(rows, token) <==> StatusOf(rows, token).None?
  {
    var r := ByToken(rows, token);
    if r.Some? {
      assert rows[r.value].token == token;
    }
  }

  lemma BringOn(rows: seq<Download>, e: Event, token: nat)
    requires !HasToken(rows, token) && Brings(e, token)
    ensures Once(Step(rows, e), token)
  {
    if e.Adding? {
      AddFirst(rows, e.d);
    } else {
      var r := ByFile(rows, e.username, e.filename);
      if r.Some? {
        var d := rows[r.value].(token := e.token, size := e.size);
        AddFirst(rows, d);
        RetainOnce(Add(rows, d), (x: Download) => x.token != rows[r.value].token, token);
      }
    }
  }

  lemma AddFirst(rows: seq<Download>, d: Download)
    requires !HasToken(rows, d.token)
    ensures Once(Add(rows, d), d.token)
  {
    RetainNoToken(rows, (x: Download) => !(x.status.Terminal() && Matches(x, d.username, d.filename)), d.token);
  }

  /** In a run, what one operation does to the row of `token` once its row is there. */
  lemma RunStep(rows: seq<Download>, events: seq<Event>, token: nat)
    requires Once(rows, token) && BroughtOnce(rows, events, token) && events != []
    requires StatusOf(Run(rows, events[..|events| - 1]), token).Some?
    ensures Moves(StatusOf(Run(rows, events[..|events| - 1]), token), StatusOf(Run(rows, events), token),
                  events[|events| - 1], token)
  {
    hide Step, Once, Brings, HasToken, StatusOf;
    var n := |events| - 1;
    BroughtFront(rows, events, token);
    RunKeeps(rows, events[..n], token);
    NoTokenMeansNone(Run(rows, events[..n]), token);
    StepOn(Run(rows, events[..n]), events[n], token);
  }

  /** A finished download keeps its status until its row is removed, whatever is done. */
  lemma {:induction false} TerminalIsForever(rows: seq<Download>, events: seq<Event>, token: nat)
    requires Once(rows, token) && BroughtOnce(rows, events, token)
    requires StatusOf(rows, token).Some? && StatusOf(rows, token).value.Terminal()
    ensures StatusOf(Run(rows, events), token).None? || StatusOf(Run(rows, events), token) == StatusOf(rows, token)
  {
    hide Step, Once, Brings, HasToken, StatusOf;
    if events != [] {
      var front := events[..|events| - 1];
      BroughtFront(rows, events, token);
      TerminalIsForever(rows, front, token);
      if StatusOf(Run(rows, front), token).Some? {
        RunStep(rows, events, token);
      } else {
        NoTokenMeansNone(rows, token);
        GoneIsGone(rows, events, token);
      }
    }
  }

  /** A row once removed does not come back under its token. */
  lemma GoneIsGone(rows: seq<Download>, events: seq<Event>, token: nat)
    requires Once(rows, token) && BroughtOnce(rows, events, token) && events != []
    requires HasToken(rows, token) || Brought(events[..|events| - 1], token)
    requires StatusOf(Run(rows, events[..|events| - 1]), token).None?
    ensures StatusOf(Run(rows, events), token).None?
  {
    hide Step, Once, Brings, HasToken, StatusOf;
    var n := |events| - 1;
    var mid, e := Run(rows, events[..n]), events[n];
    BroughtFront(rows, events, token);
    RunKeeps(rows, events[..n], token);
    NoTokenMeansNone(mid, token);
    NoTokenMeansNone(Run(rows, events), token);
    NoneComes(mid, e, token);
  }

  /** A paused download goes on only when it is resumed. */
  lemma PausedNeedsResume(rows: seq<Download>, events: seq<Event>, token: nat)
    requires Once(rows, token) && BroughtOnce(rows, events, token) && events != []
    requires var before := StatusOf(Run(rows, events[..|events| - 1]), token);
             before.Some? && before.value.Paused?
    requires var after := StatusOf(Run(rows, events), token);
             after.Some? && after.value.InProgress?
    ensures events[|events| - 1].Resuming?
    ensures var before, after := StatusOf(Run(rows, events[..|events| - 1]), token), StatusOf(Run(rows, events), token);
            after.value == InProgress(before.value.bytes, before.value.total)
  {
    RunStep(rows, events, token);
    hide Run, StatusOf;
  }

  /** How often the row of `token` is claimed in a run. */
  function Claims(rows: seq<Download>, events: seq<Event>, token: nat): nat {
    if events == [] then 0
    else
      var n := |events| - 1;
      Claims(rows, events[..n], token)
      + (if events[n].Claiming? && events[n].token == token
            && Claim(Run(rows, events[..n]), token, events[n].username).1.Some? then 1 else 0)
  }

  /** Two connections never both get the same download. */
  lemma {:induction false} ClaimedOnce(rows: seq<Download>, events: seq<Event>, token: nat)
    requires Once(rows, token) && BroughtOnce(rows, events, token) && NeverRequeued(events)
    ensures Claims(rows, events, token) <= 1
    ensures Claims(rows, events, token) == 1 ==>
              && StatusOf(Run(rows, events), token) != Some(Queued)
              && (HasToken(rows, token) || Brought(events, token))
  {
    hide Step, Once, Brings, HasToken, StatusOf, Claim, Brought, BroughtOnce;
    if events != [] {
      var n := |events| - 1;
      var front, e := events[..n], events[n];
      BroughtFront(rows, events, token);
      ClaimedOnce(rows, front, token);
      RunKeeps(rows, front, token);
      var mid := Run(rows, front);
      NoTokenMeansNone(mid, token);
      ClaimNeedsQueued(mid, token, if e.Claiming? then e.username else "");
      if Claims(rows, front, token) == 1 {
        if StatusOf(mid, token).Some? {
          RunStep(rows, events, token);
        } else {
          GoneIsGone(rows, events, token);
        }
      } else if e.Claiming? && e.token == token && Claim(mid, token, e.username).1.Some? {
        ClaimedIsInProgress(mid, token, e.username);
        ClaimingIs(mid, e);
      }
    }
  }

  lemma ClaimingIs(rows: seq<Download>, e: Event)
    requires e.Claiming?
    ensures Step(rows, e) == Claim(rows, e.token, e.username).0
  {
  }

  /** The peer whose file the token's row is. */
  function OwnerOf(rows: seq<Download>, token: nat): Option<string> {
    var r := ByToken(rows, token);
    if r.Some? then Some(rows[r.value].username) else None
  }

  /** A claim succeeds exactly when the row is queued and its owner asks. */
  lemma ClaimNeedsQueued(rows: seq<Download>, token: nat, username: string)
    ensures Claim(rows, token, username).1.Some? <==>
              StatusOf(rows, token) == Some(Queued) && OwnerOf(rows, token) == Some(username)
    ensures Claim(rows, token, username).1.Some? ==>
              && Claim(rows, token, username).1.value.username == username
              && Claim(rows, token, username).1.value.token == token
  {
  }

  lemma ClaimedIsInProgress(rows: seq<Download>, token: nat, username: string)
    requires Once(rows, token) && Claim(rows, token, username).1.Some?
    ensures StatusOf(Claim(rows, token, username).0, token).Some?
    ensures StatusOf(Claim(rows, token, username).0, token).value.InProgress?
  {
    var i := ByToken(rows, token).value;
    ReplaceStatus(rows, i, Claim(rows, token, username).1.value, token);
  }

  // ---- Failing a peer's queue ----

  lemma {:induction false} DoomedIs(rows: seq<Download>, username: string, token: nat)
    ensures token in DoomedTokens(rows, username) <==>
            exists i :: 0 <= i < |rows| && rows[i].token == token && Doomed(rows[i], username)
  {
    if rows != [] {
      var n := |rows| - 1;
      DoomedIs(rows[..n], username, token);
      if i :| 0 <= i < n && rows[i].token == token && Doomed(rows[i], username) {
        assert rows[..n][i] == rows[i];
      }
    }
  }

  lemma {:induction false} FailAllOn(rows: seq<Download>, tokens: seq<nat>, token: nat)
    requires Once(rows, token)
    ensures Once(FailAll(rows, tokens), token)
    ensures StatusOf(FailAll(rows, tokens), token) ==
            if token in tokens && StatusOf(rows, token).Some? && !StatusOf(rows, token).value.Terminal()
            then Some(Failed) else StatusOf(rows, token)
  {
    hide StatusOf, Once;
    if tokens != [] {
      var n := |tokens| - 1;
      FailAllOn(rows, tokens[..n], token);
      FailOneOn(FailAll(rows, tokens[..n]), tokens[n], token);
      assert tokens == tokens[..n] + [tokens[n]];
    }
  }

  lemma FailOneOn(rows: seq<Download>, t: nat, token: nat)
    requires Once(rows, token)
    ensures Once(UpdateStatus(rows, t, Failed).0, token)
    ensures StatusOf(UpdateStatus(rows, t, Failed).0, token) ==
            if token == t && StatusOf(rows, token).Some? && !StatusOf(rows, token).value.Terminal()
            then Some(Failed) else StatusOf(rows, token)
  {
    var r := ByToken(rows, t);
    if r.Some? {
      ReplaceStatus(rows, r.value, rows[r.value].(status := Failed), token);
    }
    hide Once;
  }

  /** A peer gone offline fails what is queued with it and nothing else: a claimed, paused or ended row stays. */
  lemma FailQueuedOn(rows: seq<Download>, username: string, token: nat)
    requires Once(rows, token)
    ensures Once(FailQueued(rows, username), token)
    ensures StatusOf(FailQueued(rows, username), token) ==
            if StatusOf(rows, token) == Some(Queued) && OwnerOf(rows, token) == Some(username)
            then Some(Failed)
            else StatusOf(rows, token)
  {
    hide FailAll, DoomedTokens, StatusOf, OwnerOf, Once;
    FailAllOn(rows, DoomedTokens(rows, username), token);
    DoomedIs(rows, username, token);
    OnlyDoomed(rows, username, token);
  }

  // ---- What the rows' channels are told ----

  /** What the channels of the rows with these tokens are told when they fail. */
  function FailureOf(tokens: seq<nat>): seq<Notice> {
    seq(|tokens|, i requires 0 <= i < |tokens| => Notice(tokens[i], Failed))
  }

  /** What an operation sends under the lock. A change of status by its token is told after it, and a claim is not told. */
  function Notices(rows: seq<Download>, e: Event): seq<Notice> {
    match e
    case Cancelling(u, f) =>
      var d := Cancel(rows, u, f).1;
      if d.Some? then [Notice(d.value.token, Cancelled)] else []
    case Pausing(u, f) =>
      var notice := Pause(rows, u, f).2;
      if notice.Some? then [notice.value] else []
    case Resuming(u, f) =>
      var notice := Resume(rows, u, f).2;
      if notice.Some? then [notice.value] else []
    case FailingQueue(u) => FailureOf(DoomedTokens(rows, u))
    case _ => []
  }

  /** Of what was sent, what the row of this token was told. */
  function ToldOn(sent: seq<Notice>, token: nat): seq<Status> {
    if sent == [] then []
    else
      var n := |sent| - 1;
      ToldOn(sent[..n], token) + (if sent[n].token == token then [sent[n].status] else [])
  }

  lemma {:induction false} ToldOnMore(a: seq<Notice>, b: seq<Notice>, token: nat)
    ensures ToldOn(a + b, token) == ToldOn(a, token) + ToldOn(b, token)
  {
    if b == [] {
      assert a + b == a;
    } else {
      var n := |b| - 1;
      ToldOnMore(a, b[..n], token);
      assert (a + b)[..|a| + n] == a + b[..n];
    }
  }

  lemma ToldOnOne(notice: Notice, token: nat)
    ensures ToldOn([notice], token) == if notice.token == token then [notice.status] else []
  {
    assert [notice][..0] == [];
  }

  lemma OneMoreFailure(tokens: seq<nat>, t: nat, token: nat)
    ensures ToldOn(FailureOf(tokens + [t]), token)
            == ToldOn(FailureOf(tokens), token) + (if t == token then [Failed] else [])
  {
    hide ToldOn;
    assert FailureOf(tokens + [t]) == FailureOf(tokens) + [Notice(t, Failed)];
    ToldOnMore(FailureOf(tokens), [Notice(t, Failed)], token);
    ToldOnOne(Notice(t, Failed), token);
  }

  lemma {:induction false} HeardFailures(rows: seq<Download>, username: string, token: nat)
    requires Once(rows, token)
    ensures ToldOn(FailureOf(DoomedTokens(rows, username)), token) ==
            if token in DoomedTokens(rows, username) then [Failed] else []
  {
    hide FailureOf, ToldOn;
    if rows == [] {
      NobodyHears(token);
    } else {
      var n := |rows| - 1;
      HeardFailures(rows[..n], username, token);
      var front := DoomedTokens(rows[..n], username);
      if Doomed(rows[n], username) {
        OneMoreFailure(front, rows[n].token, token);
        DoomedIs(rows[..n], username, token);
        assert rows[n].token == token ==> token !in front;
      } else {
        assert DoomedTokens(rows, username) == front;
      }
    }
  }

  lemma NobodyHears(token: nat)
    ensures ToldOn(FailureOf([]), token) == []
  {
  }

  /** The row's channel hears just what the row changes to, whoever changed it. */
  lemma ChannelHearsTheChanges(rows: seq<Download>, e: Event, token: nat)
    requires Once(rows, token) && !Brings(e, token) && !e.Updating? && !e.Claiming?
    ensures var before, after := StatusOf(rows, token), StatusOf(Step(rows, e), token);
            ToldOn(Notices(rows, e), token) == if after.Some? && after != before then [after.value] else []
  {
    hide StatusOf, FailQueued, Rekey, Add, Remove, Once;
    StepOn(rows, e, token);
    match e
    case Cancelling(u, f) => FileHears(rows, e, u, f, token);
    case Pausing(u, f) => FileHears(rows, e, u, f, token);
    case Resuming(u, f) => FileHears(rows, e, u, f, token);
    case FailingQueue(u) =>
      FailQueuedOn(rows, u, token);
      HeardFailures(rows, u, token);
      DoomedIs(rows, u, token);
      OnlyDoomed(rows, u, token);
    case _ =>
  }

  lemma OnlyDoomed(rows: seq<Download>, username: string, token: nat)
    requires Once(rows, token)
    ensures (exists i :: 0 <= i < |rows| && rows[i].token == token && Doomed(rows[i], username))
            <==> StatusOf(rows, token) == Some(Queued) && OwnerOf(rows, token) == Some(username)
  {
    var r := ByToken(rows, token);
    if i :| 0 <= i < |rows| && rows[i].token == token && Doomed(rows[i], username) {
      assert r == Some(i);
    }
  }

  lemma FileHears(rows: seq<Download>, e: Event, u: string, f: string, token: nat)
    requires Once(rows, token) && (e.Cancelling? || e.Pausing? || e.Resuming?) && e.username == u && e.filename == f
    ensures var before, after := StatusOf(rows, token), StatusOf(Step(rows, e), token);
            ToldOn(Notices(rows, e), token) == if after.Some? && after != before then [after.value] else []
  {
    hide StatusOf, Once, ToldOn;
    var r := ByFile(rows, u, f);
    if r.Some? {
      var i := r.value;
      var d := Step(rows, e)[i];
      if rows[i].token == token {
        AtToken(rows, i, token);
      }
      ReplaceStatus(rows, i, d, token);
      assert Step(rows, e) == rows[i := d];
      ToldOnOne(Notice(d.token, d.status), token);
    }
    NothingTold(token);
  }

  lemma NothingTold(token: nat)
    ensures ToldOn([], token) == []
  {
  }

  // ---- Moving a row to the peer's token ----

  /** What a re-keyed row becomes. */
  function Moved(rows: seq<Download>, username: string, filename: string, token: nat, size: nat): Download
    requires ByFile(rows, username, filename).Some?
  {
    rows[ByFile(rows, username, filename).value].(token := token, size := size)
  }

  /** Another row than an ended one of the same file has the token already. */
  predicate Taken(rows: seq<Download>, username: string, filename: string, token: nat) {
    exists i :: 0 <= i < |rows| && rows[i].token == token
                && !(rows[i].status.Terminal() && Matches(rows[i], username, filename))
  }

  /**
   A re-keyed row is the one its new token finds exactly when that token is not the
   one it had, and no other row keeps it. If it is the one it had, the row is lost.
   */
  lemma RekeyedExactlyWhen(rows: seq<Download>, u: string, f: string, token: nat, size: nat)
    requires var r := ByFile(rows, u, f); r.Some? && rows[r.value].status != Cancelled
    ensures var before := rows[ByFile(rows, u, f).value].token;
            var w := Rekey(rows, u, f, token, size);
            && !HasToken(w, before)
            && (FoundLast(w, Moved(rows, u, f, token, size)) <==> token != before && !Taken(rows, u, f, token))
            && (forall x :: x in rows && x.token != before && !(x.status.Terminal() && Matches(x, u, f)) ==> x in w)
  {
    hide Retain, Taken;
    var d := Moved(rows, u, f, token, size);
    var before := rows[ByFile(rows, u, f).value].token;
    var kept := Retain(rows, (x: Download) => !(x.status.Terminal() && Matches(x, u, f)));
    var left := Retain(kept, (x: Download) => x.token != before);
    RetainIs(rows, (x: Download) => !(x.status.Terminal() && Matches(x, u, f)));
    RetainIs(kept, (x: Download) => x.token != before);
    RekeyIs(rows, u, f, token, size, kept, left);
    FoundIs(left, d);
    TakenIs(rows, u, f, token);
    var w := Rekey(rows, u, f, token, size);
    assert forall x :: x in left ==> x in w;
    assert forall i :: 0 <= i < |left| ==> left[i] in left;
    assert d.token == token;
  }

  /** A queued row asked for under the very token it has is lost. */
  lemma ARowIsLost()
    ensures Rekey([Download("p", "f", 1, 10, Queued)], "p", "f", 1, 10) == []
  {
    var d := Download("p", "f", 1, 10, Queued);
    var rows := [d];
    assert rows[..0] == [];
    assert ByFile(rows, "p", "f") == Some(0);
    assert Retain(rows, (x: Download) => !(x.status.Terminal() && Matches(x, "p", "f"))) == [d];
    assert Add(rows, d) == [d] + [d];
    assert ([d] + [d])[..1] == [d];
    assert Retain([d], (x: Download) => x.token != 1) == [];
    assert Remove(Add(rows, d), 1) == [];
  }

  /** The token finds the last row, and that is this one. */
  predicate FoundLast(rows: seq<Download>, d: Download) {
    rows != [] && rows[|rows| - 1] == d && ByToken(rows, d.token) == Some(|rows| - 1)
  }

  lemma FoundIs(left: seq<Download>, d: Download)
    ensures FoundLast(left + [d], d) <==> !exists x :: x in left && x.token == d.token
  {
    var w := left + [d];
    var r := ByToken(w, d.token);
    assert w[|left|] == d;
    if r.value < |left| {
      assert w[r.value] == left[r.value] && left[r.value] in left;
    }
    if x :| x in left && x.token == d.token {
      var i :| 0 <= i < |left| && left[i] == x;
      assert w[i] == x;
    }
  }

  lemma TakenIs(rows: seq<Download>, u: string, f: string, token: nat)
    ensures Taken(rows, u, f, token) <==>
            exists x :: x in rows && x.token == token && !(x.status.Terminal() && Matches(x, u, f))
  {
    if x :| x in rows && x.token == token && !(x.status.Terminal() && Matches(x, u, f)) {
      var i :| 0 <= i < |rows| && rows[i] == x;
    }
  }

  lemma RekeyIs(
    rows: seq<Download>, u: string, f: string, token: nat, size: nat, kept: seq<Download>, left: seq<Download>)
    requires var r := ByFile(rows, u, f); r.Some? && rows[r.value].status != Cancelled
    requires kept == Retain(rows, (x: Download) => !(x.status.Terminal() && Matches(x, u, f)))
    requires left == Retain(kept, (x: Download) => x.token != rows[ByFile(rows, u, f).value].token)
    ensures Rekey(rows, u, f, token, size) ==
            left + (if token != rows[ByFile(rows, u, f).value].token then [Moved(rows, u, f, token, size)] else [])
  {
    var d := Moved(rows, u, f, token, size);
    assert Add(rows, d) == kept + [d];
    RetainOfSnoc(kept, d, (x: Download) => x.token != rows[ByFile(rows, u, f).value].token);
    hide Retain;
  }

  lemma RetainOfSnoc(rows: seq<Download>, d: Download, keep: Download -> bool)
    ensures Retain(rows + [d], keep) == Retain(rows, keep) + (if keep(d) then [d] else [])
  {
    assert (rows + [d])[..|rows|] == rows;
  }

  /** What `update_status` leaves the token's row with. */
  lemma UpdatedStatus(rows: seq<Download>, token: nat, status: Status)
    ensures StatusOf(UpdateStatus(rows, token, status).0, token) ==
            if UpdateStatus(rows, token, status).1 then Some(status) else StatusOf(rows, token)
  {
    var r := ByToken(rows, token);
    if UpdateStatus(rows, token, status).1 {
      var w := UpdateStatus(rows, token, status).0;
      assert w[r.value].token == token && w[r.value].status == status;
      assert forall j :: 0 <= j < r.value ==> w[j] == rows[j];
      assert ByToken(w, token) == r;
    }
  }
}
