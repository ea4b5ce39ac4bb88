/** The download table as it runs: a vector of rows changed in place, and the rows' channels. */
module DownloadStore {
  import opened Wrappers
  import opened DownloadSpec

  class DownloadStore {
    var downloads: seq<Download>
    /** Everything sent on the rows' channels, in order. */
    ghost var sent: seq<Notice>

    constructor ()
      ensures downloads == [] && sent == []
    {
      downloads, sent := [], [];
    }

    method FindToken(token: nat) returns (r: Option<nat>)
      ensures r == ByToken(downloads, token)
    {
      for i := 0 to |downloads|
        invariant ByToken(downloads[..i], token).None?
      {
        assert downloads[..i + 1][..i] == downloads[..i];
        if downloads[i].token == token {
          FirstTokenIs(downloads, token, i);
          return Some(i);
        }
      }
      assert downloads[..|downloads|] == downloads;
      r := None;
    }

    method FindFile(username: string, filename: string) returns (r: Option<nat>)
      ensures r == ByFile(downloads, username, filename)
    {
      for i := 0 to |downloads|
        invariant ByFile(downloads[..i], username, filename).None?
      {
        assert downloads[..i + 1][..i] == downloads[..i];
        if Matches(downloads[i], username, filename) {
          FirstFileIs(downloads, username, filename, i);
          return Some(i);
        }
      }
      assert downloads[..|downloads|] == downloads;
      r := None;
    }

    method Add(download: Download)
      modifies this`downloads
      ensures downloads == DownloadSpec.Add(old(downloads), download)
    {
      RetainRows((x: Download) => !(x.status.Terminal() && Matches(x, download.username, download.filename)));
      downloads := downloads + [download];
    }

    method Remove(token: nat)
      modifies this`downloads
      ensures downloads == DownloadSpec.Remove(old(downloads), token)
    {
      RetainRows((x: Download) => x.token != token);
    }

    method RemoveByFile(username: string, filename: string) returns (removed: bool)
      modifies this`downloads
      ensures downloads == DownloadSpec.RemoveByFile(old(downloads), username, filename)
      ensures removed <==> ByFile(old(downloads), username, filename).Some?
    {
      var before := |downloads|;
      RetainShrinks(downloads, username, filename);
      RetainRows((x: Download) => !Matches(x, username, filename));
      removed := |downloads| != before;
    }

    method RetainRows(keep: Download -> bool)
      modifies this`downloads
      ensures downloads == Retain(old(downloads), keep)
    {
      var kept: seq<Download> := [];
      for i := 0 to |downloads|
        invariant kept == Retain(downloads[..i], keep)
      {
        assert downloads[..i + 1][..i] == downloads[..i];
        if keep(downloads[i]) {
          kept := kept + [downloads[i]];
        }
      }
      assert downloads[..|downloads|] == downloads;
      downloads := kept;
    }

    method UpdateStatus(token: nat, status: Status) returns (applied: bool)
      modifies this`downloads
      ensures (downloads, applied) == DownloadSpec.UpdateStatus(old(downloads), token, status)
    {
      var r := FindToken(token);
      if r.None? {
        return false;
      }
      var d := downloads[r.value];
      if d.status.Terminal() || (d.status.Paused? && status.InProgress?) {
        return false;
      }
      downloads := downloads[r.value := d.(status := status)];
      applied := true;
    }

    /** Send on a row's channel. */
    method Tell(notice: Notice)
      modifies this`sent
      ensures sent == old(sent) + [notice]
    {
      sent := sent + [notice];
    }

    /** The lookup and the change are one step, so of two claims only one finds the row queued. */
    method ClaimForPeer(token: nat, username: string) returns (claimed: Option<Download>)
      modifies this`downloads
      ensures (downloads, claimed) == Claim(old(downloads), token, username)
    {
      var r := FindToken(token);
      if r.None? {
        return None;
      }
      var d := downloads[r.value];
      if d.username != username || d.status != Queued {
        return None;
      }
      d := d.(status := InProgress(0, d.size));
      downloads := downloads[r.value := d];
      claimed := Some(d);
    }

    method CancelByFile(username: string, filename: string) returns (cancelled: Option<Download>)
      modifies this
      ensures (downloads, cancelled) == Cancel(old(downloads), username, filename)
      ensures sent == old(sent) + (if cancelled.Some? then [Notice(cancelled.value.token, Cancelled)] else [])
    {
      var r := FindFile(username, filename);
      if r.None? || downloads[r.value].status.Terminal() {
        return None;
      }
      var d := downloads[r.value].(status := Cancelled);
      downloads := downloads[r.value := d];
      sent := sent + [Notice(d.token, Cancelled)];
      cancelled := Some(d);
    }

    method PauseByFile(username: string, filename: string) returns (paused: bool)
      modifies this
      ensures var (rows, result, notice) := Pause(old(downloads), username, filename);
              && downloads == rows && paused == result
              && sent == old(sent) + (if notice.Some? then [notice.value] else [])
    {
      var r := FindFile(username, filename);
      if r.None? {
        return false;
      }
      var d := downloads[r.value];
      if d.status.Paused? {
        return true;
      }
      if !d.status.InProgress? {
        return false;
      }
      var status := Paused(d.status.bytes, d.status.total);
      downloads := downloads[r.value := d.(status := status)];
      sent := sent + [Notice(d.token, status)];
      paused := true;
    }

    method ResumeByFile(username: string, filename: string) returns (resumed: bool)
      modifies this
      ensures var (rows, result, notice) := Resume(old(downloads), username, filename);
              && downloads == rows && resumed == result
              && sent == old(sent) + (if notice.Some? then [notice.value] else [])
    {
      var r := FindFile(username, filename);
      if r.None? {
        return false;
      }
      var d := downloads[r.value];
      if d.status.InProgress? {
        return true;
      }
      if !d.status.Paused? {
        return false;
      }
      var status := InProgress(d.status.bytes, d.status.total);
      downloads := downloads[r.value := d.(status := status)];
      sent := sent + [Notice(d.token, status)];
      resumed := true;
    }

    method RemoveQueuedByFile(username: string, filename: string) returns (removed: bool)
      modifies this`downloads
      ensures (downloads, removed) == RemoveQueued(old(downloads), username, filename)
    {
      for i := 0 to |downloads|
        invariant downloads == old(downloads)
        invariant FirstQueued(downloads[..i], username, filename).None?
      {
        assert downloads[..i + 1][..i] == downloads[..i];
        if Matches(downloads[i], username, filename) && downloads[i].status == Queued {
          FirstQueuedIs(downloads, username, filename, i);
          downloads := downloads[..i] + downloads[i + 1..];
          return true;
        }
      }
      assert downloads[..|downloads|] == downloads;
      removed := false;
    }

    /**
     The peer asks to send a file under a token of its own: the file's row goes on
     under that token. The answer tells whether the row was cancelled, and the
     request is then denied.
     */
    method UpdateDownloadTokens(username: string, filename: string, token: nat, size: nat) returns (cancelled: bool)
      modifies this`downloads
      ensures downloads == Rekey(old(downloads), username, filename, token, size)
      ensures cancelled <==> var r := ByFile(old(downloads), username, filename);
                             r.Some? && old(downloads)[r.value].status == Cancelled
    {
      var r := FindFile(username, filename);
      cancelled := r.Some? && downloads[r.value].status == Cancelled;
      if r.Some? && !cancelled {
        var d := downloads[r.value];
        Add(d.(token := token, size := size));
        Remove(d.token);
      }
    }

    /**
     `fail_queued_downloads`: the doomed rows are listed first, then each one's
     channel is told and its row failed, all under the lock.
     */
    method FailQueuedDownloads(username: string)
      modifies this
      ensures downloads == FailQueued(old(downloads), username)
      ensures sent == old(sent) + FailureOf(DoomedTokens(old(downloads), username))
    {
      var doomed: seq<nat> := [];
      for i := 0 to |downloads|
        invariant downloads == old(downloads) && sent == old(sent)
        invariant doomed == DoomedTokens(downloads[..i], username)
      {
        assert downloads[..i + 1][..i] == downloads[..i];
        if Doomed(downloads[i], username) {
          doomed := doomed + [downloads[i].token];
        }
      }
      assert downloads[..|downloads|] == downloads;
      assert FailureOf(doomed[..0]) == [];
      for k := 0 to |doomed|
        invariant downloads == FailAll(old(downloads), doomed[..k])
        invariant sent == old(sent) + FailureOf(doomed[..k])
      {
        assert doomed[..k + 1][..k] == doomed[..k];
        assert FailureOf(doomed[..k + 1]) == FailureOf(doomed[..k]) + [Notice(doomed[k], Failed)];
        sent := sent + [Notice(doomed[k], Failed)];
        var applied := UpdateStatus(doomed[k], Failed);
      }
      assert doomed[..|doomed|] == doomed;
    }

    /** Each operation makes the step of the table's machine, and sends what that says. */
    method Act(e: Event)
      modifies this
      ensures downloads == Step(old(downloads), e)
      ensures sent == old(sent) + Notices(old(downloads), e)
    {
      match e
      case Adding(d) => Add(d);
      case Removing(token) => Remove(token);
      case Updating(token, status) => var _ := UpdateStatus(token, status);
      case Claiming(token, username) => var _ := ClaimForPeer(token, username);
      case Cancelling(u, f) => var _ := CancelByFile(u, f);
      case Pausing(u, f) => var _ := PauseByFile(u, f);
      case Resuming(u, f) => var _ := ResumeByFile(u, f);
      case RemovingQueued(u, f) => var _ := RemoveQueuedByFile(u, f);
      case Forgetting(u, f) => var _ := RemoveByFile(u, f);
      case FailingQueue(u) => FailQueuedDownloads(u);
      case Rekeying(u, f, token, size) => var _ := UpdateDownloadTokens(u, f, token, size);
    }
  }

  lemma FirstTokenIs(rows: seq<Download>, token: nat, i: nat)
    requires i < |rows| && rows[i].token == token && ByToken(rows[..i], token).None?
    ensures ByToken(rows, token) == Some(i)
  {
    assert forall j :: 0 <= j < i ==> rows[..i][j].token != token && rows[..i][j] == rows[j];
    var r := ByToken(rows, token);
    assert r.Some? && !(r.value < i) && !(i < r.value);
  }

  lemma FirstFileIs(rows: seq<Download>, u: string, f: string, i: nat)
    requires i < |rows| && Matches(rows[i], u, f) && ByFile(rows[..i], u, f).None?
    ensures ByFile(rows, u, f) == Some(i)
  {
    assert forall j :: 0 <= j < i ==> !Matches(rows[..i][j], u, f) && rows[..i][j] == rows[j];
    var r := ByFile(rows, u, f);
    assert r.Some? && !(r.value < i) && !(i < r.value);
  }

  lemma FirstQueuedIs(rows: seq<Download>, u: string, f: string, i: nat)
    requires i < |rows| && Matches(rows[i], u, f) && rows[i].status == Queued && FirstQueued(rows[..i], u, f).None?
    ensures FirstQueued(rows, u, f) == Some(i)
  {
    assert forall j :: 0 <= j < i ==>
             !(Matches(rows[..i][j], u, f) && rows[..i][j].status == Queued) && rows[..i][j] == rows[j];
    var r := FirstQueued(rows, u, f);
    assert r.Some? && !(r.value < i) && !(i < r.value);
  }

  /** Dropping the rows of a file makes the table shorter exactly when there is one. */
  lemma {:induction false} RetainShrinks(rows: seq<Download>, u: string, f: string)
    ensures |DownloadSpec.RemoveByFile(rows, u, f)| != |rows| <==> ByFile(rows, u, f).Some?
  {
    if rows != [] {
      var n := |rows| - 1;
      RetainShrinks(rows[..n], u, f);
      var keep := (x: Download) => !Matches(x, u, f);
      assert Retain(rows, keep) == Retain(rows[..n], keep) + (if keep(rows[n]) then [rows[n]] else []);
    }
  }
}
