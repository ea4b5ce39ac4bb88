/**
 The download as it runs, with everybody else at the table between any two of its
 steps. Whatever they do, the run is one of the transfer machine's.
 */
module DownloadWorker {
  import opened Wrappers
  import opened Transfer
  import Attempts
  import Pauses
  import Rows = DownloadSpec
  import Store = DownloadStore
  import Part = PartFile
  import Finish = FinishTransfer

  // ---- What others do to the row ----

  /** What the row's change looks like from the worker. */
  function Seen(before: Option<Rows.Status>, after: Option<Rows.Status>): (seen: Option<Event>)
    ensures seen.Some? ==> !seen.value.Work?
  {
    if before == after then None
    else if after.None? then Some(Unlist)
    else if after.value.Cancelled? then Some(Cancel)
    else if after.value.Paused? then Some(Pause)
    else Some(Resume)
  }

  /** The machine has the row as the table does. */
  predicate Shows(s: State, rows: seq<Rows.Download>, token: nat) {
    Rows.StatusOf(rows, token) == if s.listed then Some(s.status) else None
  }

  /** Nobody else reports on this row, or brings another under its token. */
  predicate Foreign(e: Rows.Event, token: nat) {
    !Rows.Brings(e, token) && !(e.Updating? && e.token == token)
  }

  function Took(c: Context, s: State, seen: Option<Event>): State {
    if seen.Some? then Step(c, s, seen.value) else s
  }

  /** Any operation of somebody else on the table is a step of the machine, or none, also in what the channel hears. */
  lemma OthersAreSteps(c: Context, s: State, rows: seq<Rows.Download>, e: Rows.Event, token: nat)
    requires Rows.Once(rows, token) && Foreign(e, token) && Shows(s, rows, token) && s.status != Rows.Queued
    ensures Rows.Once(Rows.Step(rows, e), token)
    ensures var seen := Seen(Rows.StatusOf(rows, token), Rows.StatusOf(Rows.Step(rows, e), token));
            var w := Took(c, s, seen);
            && Shows(w, Rows.Step(rows, e), token) && w.status != Rows.Queued
            && w == s.(status := w.status, listed := w.listed, erasing := s.erasing || seen == Some(Cancel),
                       sent := s.sent + Rows.ToldOn(Rows.Notices(rows, e), token))
            && (!w.listed ==> w.status == s.status)
  {
    hide Rows.StatusOf, Rows.Step, Rows.Once, Rows.ToldOn, Rows.Notices, Rows.Brings;
    Rows.StepOn(rows, e, token);
    if Rows.StatusOf(rows, token).None? {
      Rows.NoTokenMeansNone(rows, token);
      Rows.NoneComes(rows, e, token);
      Rows.NoTokenMeansNone(Rows.Step(rows, e), token);
    }
    if e.Updating? || e.Claiming? {
      ToldLater(rows, e, token);
    } else {
      Rows.ChannelHearsTheChanges(rows, e, token);
    }
  }

  lemma ToldLater(rows: seq<Rows.Download>, e: Rows.Event, token: nat)
    requires e.Updating? || e.Claiming?
    ensures Rows.ToldOn(Rows.Notices(rows, e), token) == []
  {
  }

  // ---- The worker ----

  /** Another thread's next move: an operation on the table, or a canceller's removal of the `.part`. */
  datatype Other = OnTable(e: Rows.Event) | Erases

  /** What others do before the worker's next step, and how that step's file or socket operation goes. */
  datatype Turn = Turn(others: seq<Other>, io: Io)

  predicate AllForeign(others: seq<Other>, token: nat) {
    forall i :: 0 <= i < |others| && others[i].OnTable? ==> Foreign(others[i].e, token)
  }

  /** No turn holds a fault, a close or an empty read. */
  predicate Polite(todo: seq<Turn>) {
    forall i :: 0 <= i < |todo| ==> Pauses.GentleIo(todo[i].io)
  }

  predicate Playable(todo: seq<Turn>, token: nat) {
    forall i :: 0 <= i < |todo| ==> AllForeign(todo[i].others, token)
  }

  const READ_BUFFER_SIZE: nat := 65536
  const PROGRESS_INTERVAL_BYTES: nat := 131072

  lemma RunSnoc(c: Context, part: Option<Bytes>, events: seq<Event>, e: Event)
    ensures Run(c, part, events + [e]) == Step(c, Run(c, part, events), e)
  {
    assert (events + [e])[..|events|] == events;
  }

  /** If the turns are polite, so is every operation the worker has made. */
  predicate WorksGently(polite: bool, events: seq<Event>) {
    polite ==> forall i :: 0 <= i < |events| ==> Pauses.Gentle(events[i])
  }

  lemma OtherSnoc(polite: bool, c: Context, part: Option<Bytes>, events: seq<Event>, e: Event)
    requires !e.Work? && WorksGently(polite, events)
    ensures Run(c, part, events + [e]) == Step(c, Run(c, part, events), e)
    ensures WorksGently(polite, events + [e])
  {
    RunSnoc(c, part, events, e);
  }

  lemma WorkSnoc(polite: bool, c: Context, part: Option<Bytes>, events: seq<Event>, io: Io, report: bool)
    requires (polite ==> Pauses.GentleIo(io)) && WorksGently(polite, events)
    ensures Run(c, part, events + [Work(io, report)]) == Transfer.Worker(c, Run(c, part, events), io, report)
    ensures WorksGently(polite, events + [Work(io, report)])
  {
    RunSnoc(c, part, events, Work(io, report));
    hide Transfer.Worker, Run;
  }

  /** While the transfer is on, the socket holds what comes next in the peer's answer. */
  predicate Fed(c: Context, pc: Pc, base: Bytes, file: Bytes, incoming: Bytes) {
    && (Open(pc) && !pc.Offset? && |file| < Expected(c) ==> incoming == Stream(c, base, Minus(|file|, |base|)))
    && (pc.Offset? ==> file == base)
    && (pc.Reading? ==> |file| < Expected(c))
  }

  /** What the peer sends when it is asked to start at this offset. */
  function Answer(c: Context, offset: nat): Bytes {
    (if offset <= |c.source| then c.source[offset..] else []) + c.trailing
  }

  class Worker {
    /** What the peer sends when it is asked. */
    const peer: Context
    const token: nat
    const store: Store.DownloadStore
    const disk: Part.Disk
    var part: Part.PartFile?
    /** What of the peer's answer has not been read. */
    var incoming: Bytes
    var bytesSince: nat
    /** Somebody cancelled the row and has yet to remove the `.part`. */
    var erasing: bool
    var todo: seq<Turn>

    ghost const found: Option<Bytes>
    ghost const from: nat
    /** The turns to come, all of them, hold no fault. */
    ghost const polite: bool
    ghost var last: Rows.Status
    ghost var base: Bytes
    ghost var pc: Pc
    ghost var history: seq<Event>

    ghost function File(): Bytes
      reads this`part, part, Handle(part)
    {
      if part == null then [] else part.file.bytes
    }

    ghost function Sent(): seq<Rows.Status>
      reads store
      requires from <= |store.sent|
    {
      Rows.ToldOn(store.sent[from..], token)
    }

    /** The worker, the table and the disk as the machine has them. */
    ghost function Now(): State
      reads this`last, this`part, this`pc, this`base, this`erasing
      reads store, disk, disk.part, disk.final, part, Handle(part)
      requires from <= |store.sent|
    {
      State(
        last, Rows.StatusOf(store.downloads, token).Some?,
        Part.BytesOf(disk.part), Part.BytesOf(disk.final), pc,
        part != null && disk.part == part.file, base, File(), erasing, Sent())
    }

    /** The row, the paths and the handle are those of this download. */
    ghost predicate Sound()
      reads this`last, this`todo, this`part, store, disk
    {
      && from <= |store.sent|
      && Rows.Once(store.downloads, token) && last != Rows.Queued
      && (Rows.StatusOf(store.downloads, token).Some? ==> Rows.StatusOf(store.downloads, token) == Some(last))
      && (disk.part != null ==> disk.part != disk.final)
      && (part != null ==> part.disk == disk && part.expected == Expected(peer))
      && Playable(todo, token) && (polite ==> Polite(todo))
    }

    /** The worker is where a run of the machine has brought it. */
    ghost predicate Valid()
      reads this`last, this`part, this`pc, this`base, this`erasing, this`todo, this`history, this`incoming
      reads store, disk, disk.part, disk.final, part, Handle(part)
    {
      && Sound() && from <= |store.sent| && Now() == Run(peer, found, history) && WorksGently(polite, history)
      && (Open(pc) ==> part != null && part.Valid())
      && Fed(peer, pc, base, File(), incoming)
    }

    /** A claimed row, and whatever `.part` is there. */
    constructor (peer: Context, token: nat, store: Store.DownloadStore, disk: Part.Disk, todo: seq<Turn>)
      requires Rows.StatusOf(store.downloads, token) == Some(Rows.InProgress(0, Expected(peer)))
      requires Rows.Once(store.downloads, token) && disk.final == null && Playable(todo, token)
      ensures Valid() && pc == Starting && history == [] && found == Part.BytesOf(disk.part) && part == null
      ensures last == Rows.InProgress(0, Expected(peer)) && (polite <==> Polite(todo))
      ensures this.peer == peer && this.token == token && this.store == store && this.disk == disk && this.todo == todo
    {
      this.peer, this.token, this.store, this.disk, this.todo := peer, token, store, disk, todo;
      part, incoming, bytesSince, erasing := null, [], 0, false;
      found, from, last, base := Part.BytesOf(disk.part), |store.sent|, Rows.InProgress(0, Expected(peer)), [];
      pc, history, polite := Starting, [], Polite(todo);
    }

    // ---- The others ----

    method ActOnTable(e: Rows.Event)
      requires Valid() && Foreign(e, token)
      modifies store, this`last, this`erasing, this`history
      ensures Valid() && old(history) <= history
    {
      hide WorksGently, Run, Sound, Foreign, Rows.StatusOf, Rows.ToldOn, Part.BytesOf, Step;
      ghost var s := Now();
      var seen := ActNow(e);
      if seen.Some? {
        OtherSnoc(polite, peer, found, history, seen.value);
        history := history + [seen.value];
      }
    }

    method ActNow(e: Rows.Event) returns (seen: Option<Event>)
      requires Sound() && from <= |store.sent| && Foreign(e, token)
      modifies store, this`last, this`erasing
      ensures from <= |store.sent| && Sound() && Now() == Took(peer, old(Now()), seen) && (seen.Some? ==> !seen.value.Work?)
      ensures Now() == old(Now()).(status := last, listed := Now().listed, erasing := erasing, sent := Sent())
    {
      hide WorksGently, Run, Rows.Step, Rows.Notices, Rows.ToldOn, Rows.Once, Foreign, Playable, Rows.StatusOf, Part.BytesOf, Step;
      OthersAreSteps(peer, Now(), store.downloads, e, token);
      HeardMore(store.sent, from, Rows.Notices(store.downloads, e), token);
      var before := Rows.StatusOf(store.downloads, token);
      store.Act(e);
      var after := Rows.StatusOf(store.downloads, token);
      seen := Seen(before, after);
      if seen == Some(Cancel) {
        erasing := true;
      }
      last := if after.Some? then after.value else last;
    }

    method Erase()
      requires Valid()
      modifies disk`part, this`erasing, this`history
      ensures Valid() && old(history) <= history
      ensures disk.part == old(disk.part) || disk.part == null
    {
      hide WorksGently, Run, Rows.ToldOn, Rows.Once, Playable, Rows.StatusOf, Stream;
      OtherSnoc(polite, peer, found, history, Event.Erase);
      if erasing {
        disk.RemovePart();
        erasing := false;
      }
      history := history + [Event.Erase];
    }

    /** Nobody interferes, and nothing fails. */
    ghost predicate Smooth()
      reads this`last, this`todo, store
    {
      Calm(todo) && last.InProgress? && Rows.StatusOf(store.downloads, token).Some?
    }

    /**
     Let the others have their turns, and tell how the next operation goes. When
     no turns are left nobody does anything any more, and every read brings all it can.
     */
    method Next() returns (io: Io)
      requires Valid()
      modifies store, disk`part, this`last, this`erasing, this`history, this`todo
      ensures Valid() && old(history) <= history
      ensures old(todo) == [] ==>
                && todo == [] && history == old(history) && io == Moves(READ_BUFFER_SIZE)
                && unchanged(store) && unchanged(disk) && last == old(last) && erasing == old(erasing)
      ensures old(todo) != [] ==> |todo| < |old(todo)|
      ensures disk.part == old(disk.part) || disk.part == null
      ensures old(Calm(todo)) ==> Calm(todo) && store.downloads == old(store.downloads)
      ensures polite ==> Pauses.GentleIo(io)
      ensures old(Smooth()) ==> Smooth() && io.Moves? && io.size > 0
    {
      hide WorksGently, Run, Rows.Once, Rows.StatusOf, Stream, Shows, Part.BytesOf;
      if todo == [] {
        return Moves(READ_BUFFER_SIZE);
      }
      var turn := todo[0];
      todo := todo[1..];
      assert AllForeign(turn.others, token);
      for k := 0 to |turn.others|
        invariant Valid() && old(history) <= history && todo == old(todo)[1..]
        invariant disk.part == old(disk.part) || disk.part == null
        invariant old(Calm(todo)) ==> store.downloads == old(store.downloads)
        invariant old(Smooth()) ==> Smooth()
      {
        match turn.others[k]
        case OnTable(e) => ActOnTable(e);
        case Erases => Erase();
      }
      io := turn.io;
    }

    // ---- The steps ----

    /** A step that touches neither the table nor a file. */
    ghost method Moved(io: Io)
      requires Valid() && (polite ==> Pauses.GentleIo(io))
      requires var t := Transfer.Worker(peer, Now(), io, false);
               && t == Now().(pc := t.pc) && (Open(t.pc) ==> Open(pc) && !pc.Offset? && !t.pc.Offset?)
               && (t.pc.Reading? ==> |File()| < Expected(peer))
      modifies this`pc, this`history
      ensures Valid() && pc == old(Transfer.Worker(peer, Now(), io, false).pc)
      ensures history == old(history) + [Work(io, false)]
    {
      hide WorksGently, Run, Rows.Once, Rows.StatusOf, Stream, Transfer.Worker, Rows.ToldOn, Playable;
      WorkSnoc(polite, peer, found, history, io, false);
      ghost var t := Transfer.Worker(peer, Now(), io, false);
      pc := t.pc;
      history := history + [Work(io, false)];
    }

    ghost predicate Listed()
      reads store
    {
      Rows.StatusOf(store.downloads, token).Some?
    }

    /** Read the row once. */
    method Look() returns (status: Option<Rows.Status>)
      requires Valid() && (pc.Starting? || pc.Polling? || pc.FinishWaiting?)
      modifies store, disk`part, this`last, this`erasing, this`history, this`todo, this`pc
      ensures Valid() && old(history) <= history && File() == old(File())
      ensures disk.part == old(disk.part) || disk.part == null
      ensures pc == WhenSeen(old(pc), status, |File()| >= Expected(peer))
      ensures status == if Listed() then Some(last) else None
      ensures |todo| < |old(todo)| || (todo == old(todo) == [] && last == old(last) && Listed() == old(Listed()))
      ensures old(Smooth()) ==> Smooth() && status.Some? && status.value.InProgress?
    {
      hide WorksGently, Run, Rows.Once, Rows.StatusOf, Stream, Rows.ToldOn, Playable, Part.BytesOf, Calm;
      var io := Next();
      status := Rows.StatusOf(store.downloads, token);
      LookIs(peer, Now(), io);
      hide Transfer.Worker;
      Moved(io);
    }

    /** Read the row, again and again as long as it is paused. */
    method WaitWhilePaused() returns (w: Way)
      requires Valid() && (pc.Starting? || pc.Polling? || pc.FinishWaiting?)
      modifies store, disk`part, this`last, this`erasing, this`history, this`todo, this`pc
      ensures Valid() && old(history) <= history && File() == old(File())
      ensures disk.part == old(disk.part) || disk.part == null
      ensures w == On ==> pc == WhenReady(old(pc), |File()| >= Expected(peer))
      ensures w == Broken ==> pc == Failing(RowMissing)
      ensures w == CancelledByUser ==> pc == if old(pc).Starting? then Stopped else Discarding
      ensures w == NobodyResumes ==> pc == old(pc) && todo == [] && last.Paused? && Listed()
      ensures w == On ==> Listed() && !last.Paused? && last != Rows.Cancelled
      ensures w == Broken ==> !Listed()
      ensures w == CancelledByUser ==> Listed() && last == Rows.Cancelled
      ensures |todo| < |old(todo)| || todo == old(todo) == []
      ensures w == On && old(last.Paused? && Listed()) ==> |todo| < |old(todo)|
      ensures old(Smooth()) ==> w == On && Smooth()
    {
      hide Valid, Smooth, Listed;
      while true
        invariant Valid() && pc == old(pc) && old(history) <= history && File() == old(File())
        invariant disk.part == old(disk.part) || disk.part == null
        invariant |todo| < |old(todo)| || (todo == old(todo) && last == old(last) && Listed() == old(Listed()))
        invariant old(Smooth()) ==> Smooth()
        decreases |todo|
      {
        var more := todo != [];
        var status := Look();
        if status.None? {
          return Broken;
        }
        if status.value.Cancelled? {
          return CancelledByUser;
        }
        if !status.value.Paused? {
          return On;
        }
        if !more {
          return NobodyResumes;
        }
      }
    }

    /** `send_download_status`: update the row, and tell its channel once the lock is let go. */
    method Publish(status: Rows.Status, ghost io: Io, ghost report: bool, ghost next: Pc)
      requires Valid() && Reports(status, io, report, next)
      modifies store, disk`part, this`last, this`erasing, this`history, this`todo, this`pc
      ensures Valid() && pc == next && old(history) + [Work(io, report)] <= history && |todo| <= |old(todo)|
      ensures status.InProgress? && old(Smooth()) ==> Smooth()
    {
      hide Valid, Apply, Smooth;
      var applied := Update(status, io, report, next);
      if applied {
        Tell(status);
      }
    }

    /** This step of the worker reports a status and goes on to `next`. */
    ghost predicate Reports(status: Rows.Status, io: Io, report: bool, next: Pc)
      reads this`last, this`part, this`pc, this`base, this`erasing, this`incoming
      reads store, disk, disk.part, disk.final, part, Handle(part)
    {
      && (status.InProgress? || status == Rows.Failed) && (polite ==> Pauses.GentleIo(io))
      && from <= |store.sent| && Transfer.Worker(peer, Now(), io, report) == Apply(Now(), status, next)
      && (next.Polling? || next.Finishing? || next.Gone?)
      && (!next.Gone? ==> Open(pc))
      && Fed(peer, next, base, File(), incoming) && Fed(peer, Sending(status, next), base, File(), incoming)
    }

    method Update(status: Rows.Status, ghost io: Io, ghost report: bool, ghost next: Pc) returns (applied: bool)
      requires Valid() && Reports(status, io, report, next)
      modifies store`downloads, this`last, this`history, this`pc
      ensures Valid() && history == old(history) + [Work(io, report)]
      ensures pc == if applied then Sending(status, next) else next
      ensures status.InProgress? && old(Smooth()) ==> Smooth()
    {
      hide WorksGently, Run, Sound, Transfer.Worker, Smooth, Fed, Rows.StatusOf, Rows.ToldOn, Part.BytesOf, Apply, Part.PartFile.Valid;
      WorkSnoc(polite, peer, found, history, io, report);
      Applied(Now(), status, next);
      applied := SetStatus(status);
      pc := if applied then Sending(status, next) else next;
      history := history + [Work(io, report)];
    }

    method SetStatus(status: Rows.Status) returns (applied: bool)
      requires Sound() && status != Rows.Queued
      modifies store`downloads, this`last
      ensures from <= |store.sent| && Sound() && last == if applied then status else old(last)
      ensures applied <==> old(Now()).listed && Rows.Accepts(old(last), status)
      ensures Now() == old(Now()).(status := last)
      ensures status.InProgress? && old(Smooth()) ==> Smooth()
    {
      hide Rows.Once, Rows.StatusOf, Rows.ToldOn, Playable, Part.BytesOf, Rows.UpdateStatus, Rows.Accepts;
      Reported(store.downloads, token, status);
      applied := store.UpdateStatus(token, status);
      last := if applied then status else last;
    }

    /** The send that follows an update. */
    method Tell(status: Rows.Status)
      requires Valid() && pc.Sending? && pc.status == status
      requires pc.next.Polling? || pc.next.Finishing? || pc.next.Gone? || pc.next.Finished?
      modifies store, disk`part, this`last, this`erasing, this`history, this`todo, this`pc
      ensures Valid() && pc == old(pc).next && old(history) <= history && |todo| <= |old(todo)|
      ensures old(Calm(todo)) ==> store.downloads == old(store.downloads)
      ensures old(Smooth()) ==> Smooth()
    {
      hide Valid, Smooth, Calm;
      var io := Next();
      SendNow(status);
    }

    method SendNow(status: Rows.Status)
      requires Valid() && pc.Sending? && pc.status == status
      requires pc.next.Polling? || pc.next.Finishing? || pc.next.Gone? || pc.next.Finished?
      modifies store`sent, this`history, this`pc
      ensures Valid() && pc == old(pc).next && old(history) <= history
      ensures old(Smooth()) ==> Smooth()
    {
      hide WorksGently, Run, Sound, Stream, Smooth, Part.PartFile.Valid, Part.BytesOf, Rows.StatusOf;
      WorkSnoc(polite, peer, found, history, Idle, false);
      Send(status);
      pc := pc.next;
      history := history + [Work(Idle, false)];
    }

    method Send(status: Rows.Status)
      requires Sound()
      modifies store`sent
      ensures from <= |store.sent| && Sound() && Now() == old(Now()).(sent := old(Now()).sent + [status])
      ensures old(Smooth()) ==> Smooth()
    {
      hide Rows.Once, Rows.StatusOf, Rows.ToldOn, Playable, Part.BytesOf;
      HeardMore(store.sent, from, [Rows.Notice(token, status)], token);
      Rows.ToldOnOne(Rows.Notice(token, status), token);
      store.Tell(Rows.Notice(token, status));
    }

    // ---- Starting ----

    /** Open the `.part`, whatever has become of it meanwhile. */
    method OpenPart() returns (w: Way)
      requires Valid() && pc.Opening?
      modifies this, store, disk, disk.part
      ensures Valid() && old(history) <= history && |todo| <= |old(todo)|
      ensures if w == On then pc == Offset && fresh(part) && (part.file == old(disk.part) || fresh(part.file))
              else w == Broken && pc == Failing(FileError)
      ensures old(Smooth()) ==> w == On && Smooth()
    {
      hide Valid, Smooth;
      var io := Next();
      if io.Error? {
        OpenFails(io);
        return Broken;
      }
      OpenNow(io);
      w := On;
    }

    ghost method OpenFails(io: Io)
      requires Valid() && (pc.Opening? || pc.Offset? || pc.Reading?) && io.Error? && !polite
      modifies this`pc, this`history
      ensures Valid() && old(history) <= history
      ensures pc == Failing(if old(pc).Opening? then FileError else StreamError)
    {
      hide WorksGently, Run, Rows.StatusOf, Stream, Part.BytesOf, Sound, Rows.ToldOn;
      Moved(io);
    }

    method OpenNow(ghost io: Io)
      requires Valid() && pc.Opening? && !io.Error? && (polite ==> Pauses.GentleIo(io))
      modifies this`part, this`base, this`pc, this`history, disk`part, disk.part
      ensures Valid() && pc == Offset && fresh(part) && (part.file == old(disk.part) || fresh(part.file))
      ensures old(history) <= history
      ensures old(Smooth()) ==> Smooth()
    {
      hide WorksGently, Run, Rows.StatusOf, Stream, Rows.ToldOn, Resumed, Rows.Once, Playable, Calm;
      WorkSnoc(polite, peer, found, history, io, false);
      part := new Part.PartFile.Open(disk, |peer.source|);
      base := part.file.bytes;
      pc := Offset;
      history := history + [Work(io, false)];
    }

    /** Ask the peer to start past what the `.part` holds, and report that. */
    method Ask() returns (w: Way)
      requires Valid() && pc.Offset?
      modifies store, disk`part, this`last, this`erasing, this`history, this`todo, this`pc, this`incoming, this`bytesSince
      ensures Valid() && old(history) <= history && |todo| <= |old(todo)|
      ensures if w == On then pc == Polling && part != null && incoming == Answer(peer, part.written)
              else w == Broken && pc == Failing(StreamError)
      ensures old(Smooth()) ==> w == On && Smooth()
    {
      hide Valid, Smooth, Reports;
      var io := Next();
      if io.Error? {
        OpenFails(io);
        return Broken;
      }
      var written := AskNow(io);
      Publish(Rows.InProgress(written, |peer.source|), io, false, Polling);
      w := On;
    }

    method AskNow(ghost io: Io) returns (written: nat)
      requires Valid() && pc.Offset? && !io.Error? && (polite ==> Pauses.GentleIo(io))
      modifies this`incoming, this`bytesSince
      ensures Valid() && Reports(Rows.InProgress(written, |peer.source|), io, false, Polling)
      ensures part != null && incoming == Answer(peer, part.written)
    {
      hide WorksGently, Run, Rows.StatusOf, Rows.ToldOn, Sound, Apply, Part.BytesOf;
      written := part.written;
      incoming, bytesSince := Answer(peer, written), 0;
    }

    /** Wait for leave to start, open the `.part` and ask for the rest. */
    method StartTransfer() returns (w: Way)
      requires Valid() && pc.Starting?
      modifies this, store, disk, disk.part
      ensures Valid() && old(history) <= history && |todo| <= |old(todo)|
      ensures w == On ==>
                && pc == Polling && fresh(part) && (part.file == old(disk.part) || fresh(part.file))
                && incoming == Answer(peer, part.written)
      ensures w == Broken ==> pc.Failing?
      ensures w == CancelledByUser ==> pc == Stopped
      ensures w == NobodyResumes ==> last.Paused? && todo == []
      ensures old(Smooth()) ==> w == On && Smooth()
    {
      hide Valid, Smooth;
      w := WaitWhilePaused();
      if w == On {
        w := OpenPart();
      }
      if w == On {
        w := Ask();
      }
    }

    // ---- Receiving ----

    /** So many bytes came in at most, and are counted towards the next report; no more went to the file. */
    ghost predicate ReadAtMost(counted: nat, length: nat, most: nat)
      reads this`bytesSince, this`part, part, Handle(part)
    {
      counted < bytesSince <= counted + most && |File()| <= length + (bytesSince - counted)
    }

    /** One read, and the write of what it brought. */
    method Receive() returns (brought: Brought)
      requires Valid() && pc.Reading?
      modifies store, disk`part, this`last, this`erasing, this`history, this`todo, this`pc, this`incoming, this`bytesSince
      modifies part`written, part.file`bytes
      ensures Valid() && old(history) <= history && |todo| <= |old(todo)|
      ensures match brought
              case Data => pc == Wrote && |old(File())| < |File()| && ReadAtMost(old(bytesSince), |old(File())|, 65_536)
              case Nothing => pc == Polling && |todo| < |old(todo)|
              case End => pc == Finishing
              case Fault => pc == Failing(StreamError) || pc == Failing(FileError)
      ensures old(Smooth()) ==> brought == Data && Smooth()
    {
      hide Valid, Smooth;
      var io := Next();
      if io.Error? {
        OpenFails(io);
        return Fault;
      }
      if io.Idle? || io.Closed? {
        MovesOn(io);
        return if io.Idle? then Nothing else End;
      }
      brought := Take(io);
    }

    ghost method MovesOn(io: Io)
      requires Valid() && pc.Reading? && (io.Idle? || (io.Closed? && !polite))
      modifies this`pc, this`history
      ensures Valid() && old(history) <= history && pc == if io.Idle? then Polling else Finishing
    {
      hide WorksGently, Run, Rows.StatusOf, Stream, Part.BytesOf, Sound, Rows.ToldOn;
      Moved(io);
    }

    /** Read up to `size` bytes, no more than the buffer holds, and write them. Nothing to read is the end. */
    method Take(io: Io) returns (brought: Brought)
      requires Valid() && pc.Reading? && (io.Moves? || io.Torn?) && (polite ==> Pauses.GentleIo(io))
      modifies this`incoming, this`bytesSince, this`pc, this`history, part`written, part.file`bytes
      ensures Valid() && old(history) <= history
      ensures match brought
              case Data => pc == Wrote && |old(File())| < |File()| && ReadAtMost(old(bytesSince), |old(File())|, 65_536)
              case Nothing => false
              case End => pc == Finishing
              case Fault => pc == Failing(FileError)
      ensures io.Moves? && io.size > 0 ==> brought == Data
    {
      hide Valid;
      var size := Min(io.size, READ_BUFFER_SIZE);
      var data := incoming[..Min(size, |incoming|)];
      MoreComes();
      if data == [] {
        NothingComes(size);
        return End;
      }
      var ok := Pour(data, size, if io.Torn? then Some(io.kept) else None);
      brought := if ok then Data else Fault;
    }

    lemma MoreComes()
      requires Valid() && pc.Reading?
      ensures incoming != []
    {
      hide PcOk, Files, Told, Sound, Run;
      EveryRunKeeps(peer, found, history);
      Attempts.MoreToRead(peer, Now(), 1);
    }

    ghost method NothingComes(size: nat)
      requires Valid() && pc.Reading? && (size == 0 || incoming == []) && (polite ==> size > 0)
      modifies this`pc, this`history
      ensures Valid() && old(history) <= history && pc == Finishing
    {
      hide WorksGently, Run, Rows.StatusOf, Stream, Part.BytesOf, Sound, Rows.ToldOn, Received;
      Moved(Moves(size));
    }

    method Pour(data: Bytes, ghost size: nat, fault: Option<nat>) returns (ok: bool)
      requires Valid() && pc.Reading? && data == incoming[..Min(size, |incoming|)] && data != []
      requires polite ==> fault.None?
      modifies this`incoming, this`bytesSince, this`pc, this`history, part`written, part.file`bytes
      ensures Valid() && old(history) <= history && ok == fault.None?
      ensures pc == if ok then Wrote else Failing(FileError)
      ensures |File()| >= |old(File())| && (ok ==> |old(File())| < |File()| <= |old(File())| + |data|)
      ensures ok ==> bytesSince == old(bytesSince) + |data|
    {
      hide Valid, Sound, Run, WorksGently, Put, Stream, Taken, Fed, Read, Extends, Part.PartFile.Valid;
      ghost var io := if fault.None? then Moves(size) else Torn(size, fault.value);
      HandleIsGood();
      ghost var s := Now();
      ReadIs(peer, s, size, fault, data, incoming);
      incoming := incoming[|data|..];
      ok := PourNow(data, fault);
      if ok {
        bytesSince := bytesSince + |data|;
      }
      FedAfter(peer, if ok then Wrote else Failing(FileError), base, File(), incoming);
      Enter(s, io);
    }

    /** Everything a write to the handle relies on. */
    lemma HandleIsGood()
      requires Valid() && pc.Reading?
      ensures from <= |store.sent| && Sound() && Now() == Run(peer, found, history) && WorksGently(polite, history)
      ensures part != null && part.Valid() && incoming == Stream(peer, base, Minus(|File()|, |base|))
      ensures |File()| < Expected(peer) && disk.final == null && Extends(peer, base, File())
    {
      hide Told, Sound, Run, Extends, WorksGently, Stream;
      EveryRunKeeps(peer, found, history);
    }

    /** Take note of a step once it is done. */
    ghost method Enter(s: State, io: Io)
      requires from <= |store.sent| && Sound() && s == Run(peer, found, history)
      requires WorksGently(polite, history) && (polite ==> Pauses.GentleIo(io))
      requires var t := Transfer.Worker(peer, s, io, false);
               && t == Now().(pc := t.pc)
               && (Open(t.pc) ==> part != null && part.Valid())
               && Fed(peer, t.pc, base, File(), incoming)
      modifies this`pc, this`history
      ensures Valid() && pc == Transfer.Worker(peer, s, io, false).pc && history == old(history) + [Work(io, false)]
    {
      hide Run, Sound, Fed, WorksGently, Transfer.Worker, Part.PartFile.Valid, Rows.StatusOf, Rows.ToldOn, Part.BytesOf;
      WorkSnoc(polite, peer, found, history, io, false);
      pc := Transfer.Worker(peer, s, io, false).pc;
      history := history + [Work(io, false)];
    }

    method PourNow(data: Bytes, fault: Option<nat>) returns (ok: bool)
      requires Sound() && part != null && part.Valid() && disk.final == null
      modifies part`written, part.file`bytes
      ensures ok <==> fault.None?
      ensures from <= |store.sent| && Sound() && Now() == Put(old(Now()), File())
      ensures File() == Taken(Expected(peer), old(File()), data, fault) && (ok ==> part.Valid())
    {
      hide Rows.StatusOf, Rows.Once, Playable, Rows.ToldOn;
      ok := part.Write(data, fault);
    }

    /** After a write, report the progress if there has been enough. */
    method AfterWrite()
      requires Valid() && pc.Wrote?
      modifies store, disk`part, this`last, this`erasing, this`history, this`todo, this`pc, this`bytesSince
      ensures Valid() && old(history) <= history && |todo| <= |old(todo)| && File() == old(File())
      ensures pc == if |File()| >= Expected(peer) then Finishing else Polling
      ensures |history| > |old(history)| && history[|old(history)|] == Work(Idle, old(bytesSince) >= 131_072)
      ensures bytesSince == if old(bytesSince) >= 131_072 then 0 else old(bytesSince)
      ensures old(Smooth()) ==> Smooth()
    {
      hide Valid, Smooth, Reports;
      if bytesSince < PROGRESS_INTERVAL_BYTES {
        NoReport();
      } else {
        ghost var next := if |File()| >= Expected(peer) then Finishing else Polling;
        ToReport(next);
        Publish(Rows.InProgress(part.written, |peer.source|), Idle, true, next);
        CountAfresh();
      }
    }

    method CountAfresh()
      requires Valid()
      modifies this`bytesSince
      ensures Valid() && bytesSince == 0
    {
      hide WorksGently, Run, Sound, Fed;
      bytesSince := 0;
    }

    ghost method NoReport()
      requires Valid() && pc.Wrote?
      modifies this`pc, this`history
      ensures Valid() && history == old(history) + [Work(Idle, false)]
      ensures pc == if |File()| >= Expected(peer) then Finishing else Polling
    {
      hide WorksGently, Run, Rows.StatusOf, Stream, Part.BytesOf, Sound, Rows.ToldOn;
      Moved(Idle);
    }

    lemma ToReport(next: Pc)
      requires Valid() && pc.Wrote? && next == if |File()| >= Expected(peer) then Finishing else Polling
      ensures part != null && Reports(Rows.InProgress(part.written, |peer.source|), Idle, true, next)
    {
      hide WorksGently, Run, Rows.StatusOf, Stream, Part.BytesOf, Sound, Rows.ToldOn, Apply;
    }

    /**
     The read loop: until the download is complete, cancelled or broken, or the peer
     has closed. What is written goes on where the `.part` ended, and a fault leaves
     it there; a cancel does not.
     */
    method ReadDownloadStream() returns (w: Way)
      requires Valid() && pc.Polling?
      modifies store, disk`part, this`last, this`erasing, this`history, this`todo, this`pc, this`incoming, this`bytesSince
      modifies part`written, part.file`bytes
      ensures Valid() && old(history) <= history
      ensures w == On ==> pc == Finishing
      ensures w == Broken ==> pc.Failing?
      ensures w == CancelledByUser ==> pc == Stopped
      ensures w == NobodyResumes ==> pc == Polling && last.Paused? && todo == []
      ensures w == CancelledByUser ==> disk.part == null
      ensures part == old(part) && part != null && (w == On || disk.part == part.file ==> Extends(peer, base, File()))
      ensures old(Smooth()) ==> w == On && Smooth() && |File()| >= Expected(peer)
    {
      hide Valid, Smooth, Listed, Extends;
      HandleIsWhole();
      while true
        invariant Valid() && pc.Polling? && old(history) <= history
        invariant old(Smooth()) ==> Smooth()
        decreases |todo|, Minus(Expected(peer), |File()|)
      {
        w := WaitWhilePaused();
        if w == CancelledByUser {
          DiscardPart();
        }
        Follows();
        if w != On {
          return;
        }
        HandleIsWhole();
        if part.IsComplete() {
          return;
        }
        var brought := Receive();
        Follows();
        if brought == Fault {
          return Broken;
        }
        if brought == End {
          return;
        }
        if brought == Data {
          AfterWrite();
          HandleIsWhole();
          Follows();
          if part.IsComplete() {
            return;
          }
        }
      }
    }

    /** The handle of a transfer that is on, and any `.part` it is linked to, goes on from what was resumed. */
    lemma Follows()
      requires Valid()
      ensures Open(pc) || (part != null && disk.part == part.file) ==> Extends(peer, base, File())
    {
      hide PcOk, Files, Told, Sound, Run, Extends, Fed, Resumed;
      EveryRunKeeps(peer, found, history);
    }


    lemma HandleIsWhole()
      requires Valid() && Open(pc)
      ensures part != null && part.written == |File()| && part.expected == Expected(peer)
    {
      hide Now, Run, Fed, Rows.Once, Playable;
    }

    /** Remove the `.part` of a cancelled row. */
    method DiscardPart()
      requires Valid() && pc.Discarding?
      modifies store, disk`part, this`last, this`erasing, this`history, this`todo, this`pc
      ensures Valid() && old(history) <= history && pc == Stopped && |todo| <= |old(todo)| && disk.part == null
    {
      hide Valid;
      var io := Next();
      DiscardNow();
    }

    method DiscardNow()
      requires Valid() && pc.Discarding?
      modifies disk`part, this`history, this`pc
      ensures Valid() && old(history) <= history && pc == Stopped && disk.part == null
    {
      hide WorksGently, Run, Rows.StatusOf, Stream, Rows.ToldOn, Rows.Once, Playable;
      WorkSnoc(polite, peer, found, history, Idle, false);
      part.Discard();
      pc := Stopped;
      history := history + [Work(Idle, false)];
    }

    // ---- Finishing ----

    /** Under the lock: give up, wait, or rename and complete. */
    method FinishOnce() returns (pass: Finish.Pass)
      requires Valid() && pc.Finishing?
      modifies store, disk, this`last, this`erasing, this`history, this`todo, this`pc
      ensures Valid() && old(history) <= history
      ensures |todo| < |old(todo)| || todo == old(todo) == []
      ensures pass == Finish.Done ==> pc == Sending(Rows.Completed, Finished)
      ensures pass == Finish.Waits ==> pc == FinishWaiting && last.Paused? && Listed()
      ensures pass == Finish.GivesUp(Finish.CancelledByUser) ==> pc == Discarding
      ensures pass.GivesUp? && pass != Finish.GivesUp(Finish.CancelledByUser) ==> pc.Failing?
      ensures pass == Finish.Done ==> Listed()
      ensures old(Smooth()) && old(|File()|) >= Expected(peer) ==> pass == Finish.Done && Calm(todo)
    {
      hide Valid, Calm, Rows.StatusOf;
      var io := Next();
      PathIsThere();
      pass := FinishNow(io);
    }

    lemma PathIsThere()
      requires Valid() && pc.Finishing?
      ensures last.InProgress? && Listed() ==> disk.part != null
    {
      hide Told, Run, Extends, Resumed, Rows.Once, Playable, Fed, PcOk;
      EveryRunKeeps(peer, found, history);
    }

    method FinishNow(io: Io) returns (pass: Finish.Pass)
      requires Valid() && pc.Finishing? && (polite ==> Pauses.GentleIo(io))
      modifies store`downloads, disk, this`last, this`history, this`pc
      ensures Valid() && old(history) <= history
      ensures pass == Finish.Done ==> pc == Sending(Rows.Completed, Finished) && Listed()
      ensures pass == Finish.Waits ==> pc == FinishWaiting && last.Paused? && Listed()
      ensures pass == Finish.GivesUp(Finish.CancelledByUser) ==> pc == Discarding
      ensures pass.GivesUp? && pass != Finish.GivesUp(Finish.CancelledByUser) ==> pc.Failing?
      ensures old(last.InProgress? && Listed() && disk.part != null) && |File()| >= Expected(peer) && !io.Error? ==>
                pass == Finish.Done
    {
      hide WorksGently, Run, Sound, Stream, Transfer.Worker, Rows.ToldOn, Rows.StatusOf, Part.BytesOf;
      WorkSnoc(polite, peer, found, history, io, false);
      ghost var t := Transfer.Worker(peer, Now(), io, false);
      pass := LockedFinish(io);
      pc := t.pc;
      history := history + [Work(io, false)];
    }

    method LockedFinish(io: Io) returns (pass: Finish.Pass)
      requires Sound() && from <= |store.sent| && pc.Finishing?
      requires part != null && part.Valid()
      modifies store`downloads, disk, this`last
      ensures from <= |store.sent| && Sound()
      ensures var t := Transfer.Worker(peer, old(Now()), io, false);
              && t == Now().(pc := t.pc)
              && (pass == Finish.Done ==> t.pc == Sending(Rows.Completed, Finished) && Listed())
              && (pass == Finish.Waits ==> t.pc == FinishWaiting && last.Paused? && Listed())
              && (pass == Finish.GivesUp(Finish.CancelledByUser) ==> t.pc == Discarding)
              && (pass.GivesUp? && pass != Finish.GivesUp(Finish.CancelledByUser) ==> t.pc.Failing?)
              && (old(last.InProgress? && Listed() && disk.part != null) && |File()| >= Expected(peer) && !io.Error? ==>
                    pass == Finish.Done)
    {
      hide Rows.ToldOn, Rows.Once, Playable, Rows.StatusOf, Rows.UpdateStatus;
      Reported(store.downloads, token, Rows.Completed);
      pass := Finish.UnderLock(store, token, part, !io.Error?);
      last := if pass == Finish.Done then Rows.Completed else last;
    }

    /** `finish_transfer`: as often as it takes until the row is not paused. */
    method FinishTransfer() returns (w: Way)
      requires Valid() && pc.Finishing?
      modifies store, disk, this`last, this`erasing, this`history, this`todo, this`pc
      ensures Valid() && old(history) <= history
      ensures w == On ==> pc == Finished
      ensures w == Broken ==> pc.Failing?
      ensures w == CancelledByUser ==> pc == Stopped
      ensures w == NobodyResumes ==> pc == FinishWaiting && last.Paused? && todo == []
      ensures old(Smooth()) && old(|File()|) >= Expected(peer) ==> w == On && Listed()
    {
      hide Valid, Smooth, Rows.StatusOf, Calm;
      while true
        invariant Valid() && pc.Finishing? && old(history) <= history
        invariant old(Smooth()) && old(|File()|) >= Expected(peer) ==> Smooth() && |File()| >= Expected(peer)
        decreases |todo|
      {
        var pass := FinishOnce();
        if pass == Finish.Done {
          Tell(Rows.Completed);
          return On;
        }
        if pass == Finish.GivesUp(Finish.CancelledByUser) {
          DiscardPart();
          return CancelledByUser;
        }
        if pass.GivesUp? {
          return Broken;
        }
        w := WaitWhilePaused();
        if w == CancelledByUser {
          DiscardPart();
        }
        if w != On {
          return;
        }
      }
    }

    // ---- All of it ----

    /** The other end: serving the file from where it was asked puts on the wire what the socket brings. */
    method PeerServes(serving: seq<Part.ServeTurn>, wire: Part.Wire)
      requires Valid() && pc.Polling? && part != null && incoming == Answer(peer, part.written) && wire.sent == []
      requires forall i :: 0 <= i < |serving| ==> !serving[i].cancelled && serving[i].fault.None?
      modifies wire`sent, wire`bytesSent
      ensures Valid() && incoming == wire.sent + peer.trailing
    {
      hide WorksGently, Run, Fed, Rows.StatusOf, Rows.ToldOn, Rows.Once, Playable;
      ghost var counted, put;
      var served;
      served, counted, put := Part.ServeFile(peer.source, part.written, serving, wire);
    }

    /** A failure, whatever it was, is published as one. */
    method Fail()
      requires Valid() && pc.Failing?
      modifies store, disk`part, this`last, this`erasing, this`history, this`todo, this`pc
      ensures Valid() && old(history) <= history && pc == Gone(old(pc).reason)
    {
      hide Valid, Reports;
      var io := Next();
      FailureReports();
      Publish(Rows.Failed, Idle, false, Gone(pc.reason));
    }

    lemma FailureReports()
      requires Valid() && pc.Failing?
      ensures Reports(Rows.Failed, Idle, false, Gone(pc.reason))
    {
      hide WorksGently, Run, Rows.StatusOf, Stream, Part.BytesOf, Sound, Rows.ToldOn, Apply;
    }

    /**
     The whole download, whatever the others do meanwhile: the run that was made is
     one of the machine, and the worker ends where the machine's does.
     */
    method DownloadFile() returns (w: Way)
      requires Valid() && pc.Starting?
      modifies this, store, disk, disk.part
      ensures Valid() && old(history) <= history
      ensures w == On ==> pc == Finished
      ensures w == Broken ==> pc.Gone?
      ensures w == CancelledByUser ==> pc == Stopped
      ensures w == NobodyResumes ==> last.Paused?
      ensures old(Smooth()) ==> w == On
      ensures w == On ==> last == Rows.Completed && disk.part == null && Part.BytesOf(disk.final) == Some(Whole(peer, found))
      ensures w == CancelledByUser ==> last == Rows.Cancelled && disk.final == null && (disk.part == null || erasing)
      ensures Attempts.Usable(peer, found) ==> Attempts.Usable(peer, Part.BytesOf(disk.part))
      ensures polite && w == Broken ==> Pauses.SomeRemoval(history)
      ensures polite && w == CancelledByUser ==> Pauses.SomeRemoval(history) || !Pauses.NeverCancelled(history)
      ensures w == NobodyResumes ==> todo == []
    {
      hide Valid, Smooth;
      w := StartTransfer();
      if w == On {
        w := ReadDownloadStream();
      }
      if w == On {
        w := FinishTransfer();
      }
      if w == Broken {
        Fail();
      }
      InTheEnd();
      NothingElse();
    }

    /** With polite turns only a removal makes the download fail, and only a cancel stops it. */
    lemma NothingElse()
      requires Valid()
      ensures polite && !Pauses.SomeRemoval(history) ==>
                && !pc.Gone? && !pc.Failing?
                && (Pauses.NeverCancelled(history) ==> !pc.Stopped?)
    {
      hide Run, Sound, Fed, Part.BytesOf, Rows.StatusOf;
      if polite && !Pauses.SomeRemoval(history) {
        Pauses.NothingElseFails(peer, found, history);
      }
    }

    lemma RowIs()
      requires Valid()
      ensures Listed() ==> Rows.StatusOf(store.downloads, token) == Some(last)
    {
      hide Now, Run, Fed;
    }

    /** What the theorems about runs of the machine say of this one. */
    lemma InTheEnd()
      requires Valid()
      ensures pc.Finished? ==>
                last == Rows.Completed && disk.part == null && Part.BytesOf(disk.final) == Some(Whole(peer, found))
      ensures pc.Stopped? ==> last == Rows.Cancelled && disk.final == null && (disk.part == null || erasing)
      ensures Attempts.Usable(peer, found) ==> Attempts.Usable(peer, Part.BytesOf(disk.part))
    {
      hide WorksGently, Run, Sound, Fed, Contents, Told, Resumed, Attempts.Usable;
      EveryRunKeeps(peer, found, history);
      if Attempts.Usable(peer, found) {
        Attempts.PartStaysUsable(peer, found, history);
      }
    }
  }

  /** What was kept of the `.part` that was found, and the rest of the peer's file. */
  function Whole(c: Context, found: Option<Bytes>): Bytes {
    var base := Resumed(found, Expected(c));
    base + (if |base| <= |c.source| then c.source[|base|..] else [])
  }

  /** Reads of these sizes, and nobody about. */
  function Undisturbed(sizes: seq<nat>): seq<Turn> {
    seq(|sizes|, i requires 0 <= i < |sizes| => Turn([], Moves(if sizes[i] == 0 then 1 else sizes[i])))
  }

  /**
   A whole resumed transfer, both ends: the downloader opens its `.part` and asks
   for the rest, the uploader serves from that offset in reads of any size, the
   bytes arrive cut in any way, and the file is finished. The result is the source.
   */
  method ResumeFromPeer(
    c: Context, token: nat, store: Store.DownloadStore, disk: Part.Disk,
    serving: seq<Part.ServeTurn>, wire: Part.Wire, cuts: seq<nat>)
    requires Rows.StatusOf(store.downloads, token) == Some(Rows.InProgress(0, Expected(c)))
    requires Rows.Once(store.downloads, token) && disk.final == null && wire.sent == []
    requires Attempts.Usable(c, Part.BytesOf(disk.part))
    requires forall i :: 0 <= i < |serving| ==> !serving[i].cancelled && serving[i].fault.None?
    modifies store, disk, disk.part, wire
    ensures Part.BytesOf(disk.final) == Some(c.source) && disk.part == null
    ensures Rows.StatusOf(store.downloads, token) == Some(Rows.Completed)
  {
    hide Worker.Valid, Rows.StatusOf, Rows.Once;
    var worker := new Worker(c, token, store, disk, Undisturbed(cuts));
    var w := worker.StartTransfer();
    worker.PeerServes(serving, wire);
    w := worker.ReadDownloadStream();
    w := worker.FinishTransfer();
    worker.InTheEnd();
    worker.RowIs();
    WholeIs(c, worker.found);
  }

  lemma WholeIs(c: Context, found: Option<Bytes>)
    requires Attempts.Usable(c, found)
    ensures Whole(c, found) == c.source
  {
    var base := Resumed(found, Expected(c));
    assert base == c.source[..|base|];
  }

  /** What one turn of the read loop brought. */
  datatype Brought = Data | Nothing | End | Fault

  lemma FedAfter(c: Context, pc: Pc, base: Bytes, file: Bytes, incoming: Bytes)
    requires pc == Wrote || pc == Failing(FileError)
    requires pc == Wrote && |file| < Expected(c) ==> incoming == Stream(c, base, Minus(|file|, |base|))
    ensures Fed(c, pc, base, file, incoming) && (Open(pc) <==> pc == Wrote)
  {
  }

  /** What the file is after a write, whole or torn. */
  function Taken(expected: nat, file: Bytes, data: Bytes, fault: Option<nat>): Bytes {
    var toWrite := data[..Min(|data|, Minus(expected, |file|))];
    file + (if fault.Some? then toWrite[..Min(fault.value, |toWrite|)] else toWrite)
  }

  /** A write of what was read is the machine's read, and leaves the socket at what comes next. */
  lemma ReadIs(c: Context, s: State, size: nat, fault: Option<nat>, data: Bytes, rest: Bytes)
    requires Extends(c, s.base, s.file) && |s.file| < Expected(c)
    requires rest == Stream(c, s.base, Minus(|s.file|, |s.base|)) && data == rest[..Min(size, |rest|)] && data != []
    ensures var file := Taken(Expected(c), s.file, data, fault);
            && |s.file| <= |file| <= Expected(c) && |file| <= |s.file| + |data|
            && (fault.None? ==>
                  && Read(c, s, Moves(size)) == Put(s, file).(pc := Wrote) && |s.file| < |file|
                  && (|file| < Expected(c) ==> rest[|data|..] == Stream(c, s.base, Minus(|file|, |s.base|))))
            && (fault.Some? ==> Read(c, s, Torn(size, fault.value)) == Put(s, file).(pc := Failing(FileError)))
  {
    hide Put;
  }

  lemma Reported(rows: seq<Rows.Download>, token: nat, status: Rows.Status)
    requires Rows.Once(rows, token)
    ensures var (w, applied) := Rows.UpdateStatus(rows, token, status);
            && Rows.Once(w, token)
            && (applied <==> Rows.StatusOf(rows, token).Some? && Rows.Accepts(Rows.StatusOf(rows, token).value, status))
            && Rows.StatusOf(w, token) == if applied then Some(status) else Rows.StatusOf(rows, token)
  {
    Rows.StepOn(rows, Rows.Updating(token, status), token);
    Rows.UpdatedStatus(rows, token, status);
    hide Rows.Once;
  }

  lemma Applied(s: State, status: Rows.Status, next: Pc)
    ensures var applied := s.listed && Rows.Accepts(s.status, status);
            Apply(s, status, next) ==
            s.(status := if applied then status else s.status, pc := if applied then Sending(status, next) else next)
  {
  }

  /** How a part of the work ended. `NobodyResumes` stands for waiting for ever. */
  datatype Way = On | Broken | CancelledByUser | NobodyResumes

  function WhenReady(pc: Pc, complete: bool): Pc {
    match pc
    case Starting => Opening
    case Polling => if complete then Finishing else Reading
    case _ => Finishing
  }

  /** Where a look at the row takes the worker. */
  function WhenSeen(pc: Pc, status: Option<Rows.Status>, complete: bool): Pc {
    if status.None? then Failing(RowMissing)
    else if status.value.Cancelled? then (if pc.Starting? then Stopped else Discarding)
    else if status.value.Paused? then pc
    else WhenReady(pc, complete)
  }

  lemma LookIs(c: Context, s: State, io: Io)
    requires s.pc.Starting? || s.pc.Polling? || s.pc.FinishWaiting?
    ensures Transfer.Worker(c, s, io, false) ==
            s.(pc := WhenSeen(s.pc, if s.listed then Some(s.status) else None, |s.file| >= Expected(c)))
  {
  }

  predicate Calm(todo: seq<Turn>) {
    forall i :: 0 <= i < |todo| ==> todo[i].others == [] && todo[i].io.Moves? && todo[i].io.size > 0
  }

  lemma HeardMore(sent: seq<Rows.Notice>, from: nat, more: seq<Rows.Notice>, token: nat)
    requires from <= |sent|
    ensures Rows.ToldOn((sent + more)[from..], token) == Rows.ToldOn(sent[from..], token) + Rows.ToldOn(more, token)
  {
    assert (sent + more)[from..] == sent[from..] + more;
    Rows.ToldOnMore(sent[from..], more, token);
  }

  function Handle(part: Part.PartFile?): set<object> {
    if part == null then {} else {part.file}
  }
}
