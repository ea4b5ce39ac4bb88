/**
 The end of a download: the rename and the row's Completed happen under one lock,
 so that a cancel comes wholly before or wholly after.
 */
module FinishTransfer {
  import opened Wrappers
  import opened DownloadSpec
  import Store = DownloadStore
  import Part = PartFile

  datatype Refusal = TokenNotFound | CancelledByUser | FinishFailed(error: Part.TransferError)

  /** One pass of the loop: done, told to wait because the row is paused, or given up. */
  datatype Pass = Done | Waits | GivesUp(why: Refusal)

  predicate HasEnded(status: Status) {
    status.Completed? || status.Failed? || status.TimedOut?
  }

  /** What is renamed: a complete `.part` whose path is there, of a row that is neither cancelled nor paused. */
  ghost predicate Renames(store: Store.DownloadStore, token: nat, part: Part.PartFile, renames: bool)
    reads store, part, part.disk
  {
    var status := StatusOf(store.downloads, token);
    && status.Some? && !status.value.Cancelled? && !status.value.Paused?
    && part.written == part.expected && renames && part.disk.part != null
  }

  /**
   What happens under the lock. The rename comes first: a row that had already
   ended another way keeps its status, though its file is now there.
   */
  method UnderLock(store: Store.DownloadStore, token: nat, part: Part.PartFile, renames: bool) returns (pass: Pass)
    requires StatusOf(store.downloads, token) != Some(Cancelled) ==> part.Valid()
    modifies store`downloads, part.disk
    ensures var status := StatusOf(old(store.downloads), token);
            && (pass == Waits <==> status.Some? && status.value.Paused?)
            && (pass == GivesUp(CancelledByUser) <==> status == Some(Cancelled))
            && (status == None ==> pass == GivesUp(TokenNotFound))
            && (pass.GivesUp? && pass.why.FinishFailed? <==>
                  status.Some? && !status.value.Cancelled? && !status.value.Paused?
                  && !old(Renames(store, token, part, renames)))
            && (pass.GivesUp? && pass.why.FinishFailed? ==>
                  pass.why.error == if part.written < part.expected
                                    then Part.IncompleteDownload(part.written, part.expected) else Part.FileWriteError)
    ensures old(Renames(store, token, part, renames)) ==>
              && part.disk.part == null && part.disk.final == old(part.disk.part)
              && (pass == Done || pass == GivesUp(TokenNotFound))
              && (store.downloads, pass == Done) == UpdateStatus(old(store.downloads), token, Completed)
    ensures !old(Renames(store, token, part, renames)) ==> unchanged(part.disk) && store.downloads == old(store.downloads)
  {
    var at := store.FindToken(token);
    if at.None? {
      return GivesUp(TokenNotFound);
    }
    var status := store.downloads[at.value].status;
    if status == Cancelled {
      return GivesUp(CancelledByUser);
    }
    if status.Paused? {
      return Waits;
    }
    var finished := part.Finish(renames);
    if finished.Failure? {
      return GivesUp(FinishFailed(finished.error));
    }
    var applied := store.UpdateStatus(token, Completed);
    pass := if applied then Done else GivesUp(TokenNotFound);
  }

  /**
   One pass that nobody comes between: a cancelled row loses its `.part`, wherever
   that has got to, a paused one waits, and otherwise a complete `.part` is renamed,
   the row completed and its channel told.
   */
  method FinishPass(store: Store.DownloadStore, token: nat, part: Part.PartFile, renames: bool) returns (pass: Pass)
    requires StatusOf(store.downloads, token) != Some(Cancelled) ==> part.Valid()
    modifies store, part.disk
    ensures var status := StatusOf(old(store.downloads), token);
            var renamed := old(Renames(store, token, part, renames));
            && (renamed ==> part.disk.part == null && part.disk.final == old(part.disk.part))
            && (!renamed ==> store.downloads == old(store.downloads) && store.sent == old(store.sent)
                             && part.disk.final == old(part.disk.final) && pass != Done)
            && (!renamed ==> part.disk.part == if status == Some(Cancelled) then null else old(part.disk.part))
            && (renamed ==> (StatusOf(store.downloads, token) == Some(Completed) && pass == Done <==> !HasEnded(status.value)))
            && (renamed && HasEnded(status.value) ==> store.downloads == old(store.downloads) && store.sent == old(store.sent))
            && (pass == Done ==> store.sent == old(store.sent) + [Notice(token, Completed)])
            && (pass == Waits <==> status.Some? && status.value.Paused?)
            && (pass == GivesUp(CancelledByUser) <==> status == Some(Cancelled))
            && (status == None ==> pass == GivesUp(TokenNotFound))
  {
    UpdatedStatus(store.downloads, token, Completed);
    pass := UnderLock(store, token, part, renames);
    if pass == GivesUp(CancelledByUser) {
      part.Discard();
    } else if pass == Done {
      store.Tell(Notice(token, Completed));
    }
  }
}
