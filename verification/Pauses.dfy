/**
 What pauses, cancels and faults lead to: a paused download waits and goes on, a
 cancelled one stops, a fault ends it as what it was, and nothing else does.
 */
module Pauses {
  import opened Wrappers
  import opened Transfer
  import opened Attempts
  import Rows = DownloadSpec

  /** The socket times out or brings something; no operation fails. */
  predicate GentleIo(io: Io) {
    io.Idle? || (io.Moves? && io.size > 0)
  }

  predicate Gentle(e: Event) {
    e.Work? ==> GentleIo(e.io)
  }

  /** Nothing fails, is closed or comes empty, and the row stays in the table. */
  predicate AllGentle(events: seq<Event>) {
    forall i :: 0 <= i < |events| ==> Gentle(events[i]) && !events[i].Unlist?
  }

  predicate NeverCancelled(events: seq<Event>) {
    forall i :: 0 <= i < |events| ==> !events[i].Cancel?
  }

  /** Where a worker is to whom nothing has happened. */
  predicate Unharmed(c: Context, s: State) {
    && s.listed && !s.pc.Failing? && !s.pc.Gone?
    && (s.pc.Sending? ==> !s.pc.next.Gone? && !s.pc.next.Failing?)
    && (s.pc.Sending? && s.pc.next == Finishing ==> |s.file| >= Expected(c))
    && (s.pc.Finishing? || s.pc.FinishWaiting? ==> |s.file| >= Expected(c))
    && (s.pc.Reading? ==> |s.file| < Expected(c))
  }

  /** In which it was not cancelled either. */
  predicate Wanted(s: State) {
    && s.status != Rows.Cancelled && !s.pc.Stopped? && !s.pc.Discarding?
    && (s.status == Rows.Completed <==> s.pc == Finished || s.pc == Sending(Rows.Completed, Finished))
  }

  // ---- Nothing but a fault or a removal makes a download fail ----

  lemma GentleReads(c: Context, part0: Option<Bytes>, s: State, io: Io)
    requires Inv(c, part0, s) && Unharmed(c, s) && s.pc.Reading? && GentleIo(io)
    ensures Unharmed(c, Read(c, s, io)) && Read(c, s, io).status == s.status
    ensures Read(c, s, io).pc == if io.Idle? then Polling else Wrote
    ensures io.Moves? ==> |Read(c, s, io).file| > |s.file|
  {
    hide Files, Told, Contents, PcOk;
    if io.Moves? {
      OpenExtends(c, part0, s);
      MoreToRead(c, s, io.size);
      hide Stream, Received, Extends;
    }
  }

  lemma OpenExtends(c: Context, part0: Option<Bytes>, s: State)
    requires Inv(c, part0, s) && Open(s.pc)
    ensures Extends(c, s.base, s.file)
  {
    hide Files, Told, PcOk, Extends, Resumed;
  }

  lemma GentleFinish(c: Context, part0: Option<Bytes>, s: State, io: Io, report: bool)
    requires Inv(c, part0, s) && Unharmed(c, s) && s.pc.Finishing? && GentleIo(io)
    ensures Unharmed(c, Worker(c, s, io, report))
    ensures Wanted(s) ==> Wanted(Worker(c, s, io, report))
  {
    if s.status != Rows.Cancelled {
      NeverRefused(c, part0, s);
    }
    hide Contents, Files, Told;
  }

  lemma GentleWork(c: Context, part0: Option<Bytes>, s: State, io: Io, report: bool)
    requires Inv(c, part0, s) && Unharmed(c, s) && GentleIo(io)
    ensures Unharmed(c, Worker(c, s, io, report))
    ensures Wanted(s) ==> Wanted(Worker(c, s, io, report))
  {
    if s.pc.Reading? {
      GentleReads(c, part0, s, io);
    } else if s.pc.Finishing? {
      GentleFinish(c, part0, s, io, report);
      hide Worker;
    } else {
      hide Contents, Files, Told;
    }
    hide Read, Resumed;
  }

  /**
   However cancels, erasures, pauses and resumes fall: while no operation fails, is
   closed or comes empty and the row is there, the worker never fails; and if nobody
   cancels it never stops.
   */
  lemma {:induction false} NothingElseFails(c: Context, part0: Option<Bytes>, events: seq<Event>)
    requires AllGentle(events)
    ensures Unharmed(c, Run(c, part0, events))
    ensures NeverCancelled(events) ==> Wanted(Run(c, part0, events))
  {
    hide Worker, Inv, Unharmed, Wanted, Gentle;
    if events == [] {
      UnharmedAtFirst(c, part0);
    } else {
      var n := |events| - 1;
      NothingElseFails(c, part0, events[..n]);
      EveryRunKeeps(c, part0, events[..n]);
      GentleStep(c, part0, Run(c, part0, events[..n]), events[n]);
    }
  }

  lemma UnharmedAtFirst(c: Context, part0: Option<Bytes>)
    ensures Unharmed(c, Initial(c, part0)) && Wanted(Initial(c, part0))
  {
  }

  lemma GentleStep(c: Context, part0: Option<Bytes>, s: State, e: Event)
    requires Inv(c, part0, s) && Unharmed(c, s) && Gentle(e) && !e.Unlist?
    ensures Unharmed(c, Step(c, s, e))
    ensures Wanted(s) && !e.Cancel? ==> Wanted(Step(c, s, e))
  {
    if e.Work? {
      GentleWork(c, part0, s, e.io, e.report);
      hide Worker, Unharmed, Wanted;
    } else {
      hide Contents, Files, Told, Worker;
    }
  }

  // ---- A paused download waits, and goes on ----

  /** A paused worker that looks at its row goes on looking, whatever its socket does. */
  lemma PausedWaits(c: Context, s: State, io: Io, report: bool)
    requires s.listed && s.status.Paused? && (s.pc.Starting? || s.pc.Polling? || s.pc.FinishWaiting?)
    ensures Worker(c, s, io, report) == s
  {
  }

  /** What is still to do at this point, in steps. */
  function ToDo(pc: Pc): nat {
    match pc
    case Starting => 10
    case Opening => 9
    case Offset => 8
    case Wrote => 8
    case Sending(_, next) => if next == Finished then 1 else if next == Finishing then 4 else 7
    case Polling => 6
    case Reading => 5
    case FinishWaiting => 3
    case Finishing => 2
    case _ => 0
  }

  /** One step of a worker whose row is in progress: it is nearer its end. */
  lemma Nearer(c: Context, part0: Option<Bytes>, s: State, size: nat)
    requires Inv(c, part0, s) && Unharmed(c, s) && Wanted(s) && !s.status.Paused? && size > 0 && !s.pc.Finished?
    ensures var t := Worker(c, s, Moves(size), false);
            && Unharmed(c, t) && Wanted(t) && !t.status.Paused?
            && (|t.file| > |s.file| || s.pc.Opening? || (|t.file| == |s.file| && ToDo(t.pc) < ToDo(s.pc)))
            && (s.pc.Opening? ==> t.pc.Offset?)
            && (t.pc.Opening? ==> s.pc.Starting?) && !t.pc.Starting?
  {
    GentleWork(c, part0, s, Moves(size), false);
    if s.pc.Reading? {
      GentleReads(c, part0, s, Moves(size));
    }
    if s.pc.Finishing? {
      NeverRefused(c, part0, s);
    }
    hide Contents, Files, Told, Read, Resumed, Unharmed;
  }

  /** The steps a worker is from its end, while nothing keeps it back. */
  lemma {:induction false} GoesOn(c: Context, part0: Option<Bytes>, s: State, size: nat) returns (steps: nat)
    requires Inv(c, part0, s) && Unharmed(c, s) && Wanted(s) && !s.status.Paused? && size > 0
    ensures var t := Alone(c, s, size, steps); t.pc == Finished && t.status == Rows.Completed && Inv(c, part0, t)
    decreases if s.pc.Starting? then 2 else if s.pc.Opening? then 1 else 0, Minus(Expected(c), |s.file|), ToDo(s.pc)
  {
    hide Worker, Inv, Unharmed, ToDo;
    if s.pc.Finished? {
      assert Alone(c, s, size, 0) == s;
      return 0;
    }
    Nearer(c, part0, s, size);
    NoMoreThanExpected(c, s, size);
    KeepsOn(c, part0, s, size);
    var t := Worker(c, s, Moves(size), false);
    var more := GoesOn(c, part0, t, size);
    AloneThen(c, s, size, 1, more);
    OneAlone(c, s, size);
    steps := 1 + more;
  }

  lemma OneAlone(c: Context, s: State, size: nat)
    ensures Alone(c, s, size, 1) == Worker(c, s, Moves(size), false)
  {
    assert Alone(c, s, size, 0) == s;
    hide Worker;
  }

  /** Only a worker that reads gets more bytes, and it does so while some are missing. */
  lemma NoMoreThanExpected(c: Context, s: State, size: nat)
    requires Unharmed(c, s)
    ensures |Worker(c, s, Moves(size), false).file| > |s.file| && !s.pc.Opening? ==> |s.file| < Expected(c)
  {
    hide Read, Resumed;
  }

  lemma KeepsOn(c: Context, part0: Option<Bytes>, s: State, size: nat)
    requires Inv(c, part0, s)
    ensures Inv(c, part0, Worker(c, s, Moves(size), false))
  {
    WorkerKeepsPc(c, part0, s, Moves(size), false);
    WorkerKeepsFiles(c, part0, s, Moves(size), false);
    hide Worker, PcOk, Contents, Files, Told;
  }

  /**
   From wherever a download was left that nobody cancelled and nothing disturbed, with
   any pauses and resumes so far: if it is not paused now, the worker alone completes
   it, with reads of any size, and the file is what was resumed and the rest.
   */
  lemma ResumedCompletes(c: Context, part0: Option<Bytes>, events: seq<Event>, size: nat) returns (steps: nat)
    requires AllGentle(events) && NeverCancelled(events) && size > 0
    requires !Run(c, part0, events).status.Paused?
    ensures var t := Alone(c, Run(c, part0, events), size, steps);
            && t.pc == Finished && t.status == Rows.Completed && t.part == None
            && t.final == Some(Resumed(part0, Expected(c)) + c.source[|Resumed(part0, Expected(c))|..])
  {
    EveryRunKeeps(c, part0, events);
    NothingElseFails(c, part0, events);
    steps := GoesOn(c, part0, Run(c, part0, events), size);
    hide Run, Alone, Contents, Told, PcOk, Resumed;
  }

  /** Resuming sets a paused row in progress where it was, so that the above holds of it. */
  lemma ResumeResumes(c: Context, part0: Option<Bytes>, events: seq<Event>)
    requires var s := Run(c, part0, events); s.listed && s.status.Paused?
    ensures var s, w := Run(c, part0, events), Run(c, part0, events + [Resume]);
            && w.status == Rows.InProgress(s.status.bytes, s.status.total) && w.pc == s.pc
            && w.part == s.part && w.file == s.file && w.sent == s.sent + [w.status]
  {
    assert (events + [Resume])[..|events|] == events;
  }

  /** As long as it is paused the row stays as it is, whatever the worker does, and the file is not finished. */
  lemma {:induction false} PausedStays(c: Context, part0: Option<Bytes>, events: seq<Event>, works: seq<Event>)
    requires AllGentle(events + works) && (forall i :: 0 <= i < |works| ==> works[i].Work?)
    requires Run(c, part0, events).status.Paused?
    ensures Run(c, part0, events + works).status == Run(c, part0, events).status
    ensures Run(c, part0, events + works).final == None
  {
    hide Worker, Inv, Unharmed, Wanted;
    if works == [] {
      assert events + works == events;
    } else {
      var n := |works| - 1;
      var front := events + works[..n];
      assert (events + works)[..|front|] == front;
      assert forall i :: 0 <= i < |front| ==> front[i] == (events + works)[i];
      PausedStays(c, part0, events, works[..n]);
      EveryRunKeeps(c, part0, front);
      NothingElseFails(c, part0, front);
      PausedStep(c, Run(c, part0, front), works[n].io, works[n].report);
    }
    EveryRunKeeps(c, part0, events + works);
    NoFinal(c, part0, Run(c, part0, events + works));
  }

  lemma NoFinal(c: Context, part0: Option<Bytes>, s: State)
    requires Inv(c, part0, s) && s.status != Rows.Completed
    ensures s.final == None
  {
    hide Contents, Told, PcOk;
  }

  lemma PausedStep(c: Context, s: State, io: Io, report: bool)
    requires Unharmed(c, s) && s.status.Paused?
    ensures Worker(c, s, io, report).status == s.status
  {
    hide Received, Stream, Resumed;
  }

  // ---- A cancelled download stops ----

  /** How many of its own steps a worker is from noticing that it was cancelled. */
  function ToStop(pc: Pc): nat {
    match pc
    case Starting => 1
    case Opening => 6
    case Offset => 5
    case Sending(_, _) => 5
    case Reading => 4
    case Wrote => 3
    case FinishWaiting => 2
    case Finishing => 2
    case Polling => 2
    case Discarding => 1
    case _ => 0
  }

  lemma CancelledStep(c: Context, part0: Option<Bytes>, s: State, size: nat)
    requires Inv(c, part0, s) && Unharmed(c, s) && s.status == Rows.Cancelled && size > 0 && !s.pc.Stopped?
    ensures var t := Worker(c, s, Moves(size), false);
            && Unharmed(c, t) && t.status == Rows.Cancelled && t.erasing == s.erasing && ToStop(t.pc) < ToStop(s.pc)
            && (t.pc.Stopped? && !s.pc.Starting? ==> t.part == None)
  {
    GentleWork(c, part0, s, Moves(size), false);
    if s.pc.Reading? {
      GentleReads(c, part0, s, Moves(size));
    }
    hide Contents, Files, Told, Read, Resumed, Unharmed;
  }

  lemma {:induction false} CancelledStopsFrom(c: Context, part0: Option<Bytes>, s: State, size: nat) returns (steps: nat)
    requires Inv(c, part0, s) && Unharmed(c, s) && s.status == Rows.Cancelled && size > 0
    ensures var t := Alone(c, s, size, steps);
            t.pc == Stopped && t.status == Rows.Cancelled && t.erasing == s.erasing && Inv(c, part0, t)
    ensures steps <= ToStop(s.pc)
    decreases ToStop(s.pc)
  {
    hide Worker, Inv, Unharmed, ToStop;
    if s.pc.Stopped? {
      assert Alone(c, s, size, 0) == s;
      return 0;
    }
    CancelledStep(c, part0, s, size);
    KeepsOn(c, part0, s, size);
    var more := CancelledStopsFrom(c, part0, Worker(c, s, Moves(size), false), size);
    AloneThen(c, s, size, 1, more);
    OneAlone(c, s, size);
    steps := 1 + more;
  }

  /**
   From wherever a download was when it was cancelled, undisturbed otherwise, the
   worker alone stops within six steps; and once the canceller has erased too, no
   file is left.
   */
  lemma CancelledStops(c: Context, part0: Option<Bytes>, events: seq<Event>, size: nat) returns (steps: nat)
    requires AllGentle(events) && size > 0 && Run(c, part0, events).status == Rows.Cancelled
    ensures steps <= 6
    ensures var t := Alone(c, Run(c, part0, events), size, steps);
            && t.pc == Stopped && t.status == Rows.Cancelled && t.final == None
            && (!Run(c, part0, events).erasing ==> t.part == None)
  {
    EveryRunKeeps(c, part0, events);
    NothingElseFails(c, part0, events);
    steps := CancelledStopsFrom(c, part0, Run(c, part0, events), size);
    SixAtMost(Run(c, part0, events).pc);
    NoFinal(c, part0, Alone(c, Run(c, part0, events), size, steps));
    hide Run, Alone, Contents, Told, PcOk, ToStop;
  }

  lemma SixAtMost(pc: Pc)
    ensures ToStop(pc) <= 6
  {
  }

  // ---- What a failure is for ----

  predicate SomeFault(events: seq<Event>) {
    exists i :: 0 <= i < |events| && events[i].Work? && events[i].io.Error?
  }

  predicate SomeTear(events: seq<Event>) {
    exists i :: 0 <= i < |events| && events[i].Work? && events[i].io.Torn?
  }

  /** The connection was closed, or a read brought nothing. */
  predicate SomeEnd(events: seq<Event>) {
    exists i :: 0 <= i < |events| && events[i].Work? && (events[i].io.Closed? || events[i].io == Moves(0))
  }

  predicate SomeRemoval(events: seq<Event>) {
    exists i :: 0 <= i < |events| && events[i].Unlist?
  }

  predicate CauseOf(reason: Reason, events: seq<Event>) {
    match reason
    case FileError => SomeFault(events) || SomeTear(events)
    case StreamError => SomeFault(events)
    case Incomplete => SomeEnd(events)
    case RowMissing => SomeRemoval(events)
    case RowRefused => false
  }

  function ReasonOf(pc: Pc): Option<Reason> {
    match pc
    case Failing(reason) => Some(reason)
    case Gone(reason) => Some(reason)
    case Sending(_, next) => ReasonOf(next)
    case _ => None
  }

  predicate Caused(c: Context, s: State, events: seq<Event>) {
    && (ReasonOf(s.pc).Some? ==> CauseOf(ReasonOf(s.pc).value, events))
    && (!s.listed ==> SomeRemoval(events))
    && (s.pc.Finishing? || s.pc.FinishWaiting? ==> |s.file| < Expected(c) ==> SomeEnd(events))
    && (s.pc.Sending? && s.pc.next == Finishing ==> |s.file| >= Expected(c))
    && (s.pc.Sending? && s.pc.next != Finishing ==> s.pc.next == Polling || s.pc.next == Finished || s.pc.next.Gone?)
    && (s.pc.Reading? ==> |s.file| < Expected(c))
  }

  lemma StillHas(events: seq<Event>, e: Event)
    ensures SomeFault(events + [e]) <==> SomeFault(events) || (e.Work? && e.io.Error?)
    ensures SomeTear(events + [e]) <==> SomeTear(events) || (e.Work? && e.io.Torn?)
    ensures SomeEnd(events + [e]) <==> SomeEnd(events) || (e.Work? && (e.io.Closed? || e.io == Moves(0)))
    ensures SomeRemoval(events + [e]) <==> SomeRemoval(events) || e.Unlist?
  {
    var all := events + [e];
    assert all[|events|] == e;
    assert forall i :: 0 <= i < |events| ==> all[i] == events[i];
  }

  /** What others do to the row leaves the worker where it is. */
  lemma ElseCaused(c: Context, s: State, e: Event, events: seq<Event>)
    requires Caused(c, s, events) && !e.Work?
    ensures Caused(c, Step(c, s, e), events + [e])
  {
    hide SomeFault, SomeTear, SomeEnd, SomeRemoval, CauseOf;
    StillHas(events, e);
    if ReasonOf(s.pc).Some? {
      CauseStays(ReasonOf(s.pc).value, events, e);
    }
  }

  lemma StepCaused(c: Context, part0: Option<Bytes>, s: State, e: Event, events: seq<Event>)
    requires Inv(c, part0, s) && Caused(c, s, events)
    ensures Caused(c, Step(c, s, e), events + [e])
  {
    hide SomeFault, SomeTear, SomeEnd, SomeRemoval;
    StillHas(events, e);
    match e
    case Work(io, report) =>
      if s.pc.Reading? {
        ReadCaused(c, part0, s, io, events);
      } else {
        WorkCaused(c, part0, s, io, report, events);
      }
      hide Worker, Caused;
    case _ => ElseCaused(c, s, e, events);
  }

  lemma ReadCaused(c: Context, part0: Option<Bytes>, s: State, io: Io, events: seq<Event>)
    requires Inv(c, part0, s) && Caused(c, s, events) && s.pc.Reading?
    ensures Caused(c, Read(c, s, io), events + [Work(io, false)]) && Caused(c, Read(c, s, io), events + [Work(io, true)])
  {
    hide SomeFault, SomeTear, SomeEnd, SomeRemoval, Received, Stream, Extends, PcOk, Contents, Files, Told;
    StillHas(events, Work(io, false));
    StillHas(events, Work(io, true));
    OpenExtends(c, part0, s);
    MoreToRead(c, s, 1);
  }

  lemma CauseStays(reason: Reason, events: seq<Event>, e: Event)
    ensures CauseOf(reason, events) ==> CauseOf(reason, events + [e])
  {
    StillHas(events, e);
    hide SomeFault, SomeTear, SomeEnd, SomeRemoval;
  }

  lemma ApplyCaused(c: Context, s: State, status: Rows.Status, next: Pc, events: seq<Event>)
    requires !s.listed ==> SomeRemoval(events)
    requires next == Polling || (next == Finishing && |s.file| >= Expected(c))
             || (next.Gone? && CauseOf(next.reason, events))
    ensures Caused(c, Apply(s, status, next), events)
  {
    hide SomeFault, SomeTear, SomeEnd, SomeRemoval, CauseOf;
    assert ReasonOf(Polling).None? && ReasonOf(Finishing).None?;
    assert next.Gone? ==> ReasonOf(next) == Some(next.reason);
  }

  lemma FinishCaused(c: Context, part0: Option<Bytes>, s: State, io: Io, events: seq<Event>)
    requires Inv(c, part0, s) && Caused(c, s, events) && s.pc.Finishing?
    ensures Caused(c, Worker(c, s, io, false), events + [Work(io, false)])
    ensures Caused(c, Worker(c, s, io, true), events + [Work(io, true)])
  {
    hide SomeFault, SomeTear, SomeEnd, SomeRemoval, Contents, Files, Told;
    StillHas(events, Work(io, false));
    StillHas(events, Work(io, true));
    if s.status != Rows.Cancelled {
      NeverRefused(c, part0, s);
    }
  }

  lemma ReportCaused(c: Context, s: State, io: Io, report: bool, events: seq<Event>)
    requires Caused(c, s, events) && (s.pc.Failing? || s.pc.Wrote? || s.pc.Offset?)
    ensures Caused(c, Worker(c, s, io, report), events + [Work(io, report)])
  {
    hide SomeFault, SomeTear, SomeEnd, SomeRemoval, Apply;
    var all := events + [Work(io, report)];
    StillHas(events, Work(io, report));
    if s.pc.Failing? {
      CauseStays(s.pc.reason, events, Work(io, report));
      ApplyCaused(c, s, Rows.Failed, Gone(s.pc.reason), all);
    } else {
      var next := if s.pc.Wrote? && |s.file| >= Expected(c) then Finishing else Polling;
      ApplyCaused(c, s, Rows.InProgress(|s.file|, Expected(c)), next, all);
    }
  }

  lemma OtherCaused(c: Context, s: State, io: Io, report: bool, events: seq<Event>)
    requires Caused(c, s, events)
    requires !s.pc.Reading? && !s.pc.Failing? && !s.pc.Wrote? && !s.pc.Offset? && !s.pc.Finishing?
    ensures Caused(c, Worker(c, s, io, report), events + [Work(io, report)])
  {
    hide SomeFault, SomeTear, SomeEnd, SomeRemoval, Resumed;
    StillHas(events, Work(io, report));
    if ReasonOf(s.pc).Some? {
      CauseStays(ReasonOf(s.pc).value, events, Work(io, report));
    }
  }

  lemma WorkCaused(c: Context, part0: Option<Bytes>, s: State, io: Io, report: bool, events: seq<Event>)
    requires Inv(c, part0, s) && Caused(c, s, events) && !s.pc.Reading?
    ensures Caused(c, Worker(c, s, io, report), events + [Work(io, report)])
  {
    hide Worker, Caused, Inv;
    if s.pc.Finishing? {
      FinishCaused(c, part0, s, io, events);
    } else if s.pc.Failing? || s.pc.Wrote? || s.pc.Offset? {
      ReportCaused(c, s, io, report, events);
    } else {
      OtherCaused(c, s, io, report, events);
    }
  }

  /** A failure is never for nothing: each reason has its cause in the run. */
  lemma {:induction false} FailsForAReason(c: Context, part0: Option<Bytes>, events: seq<Event>)
    ensures Caused(c, Run(c, part0, events), events)
    ensures forall reason :: Run(c, part0, events).pc == Gone(reason) ==> CauseOf(reason, events)
  {
    hide Step, Inv, CauseOf;
    if events == [] {
      NoCause(c, part0);
    } else {
      var n := |events| - 1;
      FailsForAReason(c, part0, events[..n]);
      EveryRunKeeps(c, part0, events[..n]);
      StepCaused(c, part0, Run(c, part0, events[..n]), events[n], events[..n]);
      assert events[..n] + [events[n]] == events;
    }
  }

  lemma NoCause(c: Context, part0: Option<Bytes>)
    ensures Caused(c, Initial(c, part0), [])
  {
  }

  // ---- What a fault does ----

  /** Where this operation's fault strikes, and as what. */
  function Struck(c: Context, s: State, io: Io): Option<Reason> {
    if s.pc.Opening? && io.Error? then Some(FileError)
    else if s.pc.Offset? && io.Error? then Some(StreamError)
    else if s.pc.Reading? && io.Error? then Some(StreamError)
    else if s.pc.Reading? && io.Torn? then Some(FileError)
    else if s.pc.Finishing? && s.listed && s.status.InProgress? && |s.file| < Expected(c) then Some(Incomplete)
    else if s.pc.Finishing? && s.listed && s.status.InProgress? && io.Error? then Some(FileError)
    else if (s.pc.Starting? || s.pc.Polling? || s.pc.Finishing? || s.pc.FinishWaiting?) && !s.listed then Some(RowMissing)
    else None
  }

  /**
   A fault ends the download: with the next steps the worker is gone for that reason,
   a row that is there and has not ended has failed and its channel been told, and
   the `.part` is kept for the next attempt.
   */
  lemma FaultsEnd(c: Context, part0: Option<Bytes>, events: seq<Event>, io: Io, then1: Io, then2: Io)
    requires Struck(c, Run(c, part0, events), io).Some?
    ensures var s := Run(c, part0, events);
            var reason := Struck(c, s, io).value;
            var hit := Worker(c, s, io, false);
            var next := Worker(c, hit, then1, false);
            var fails := s.listed && !s.status.Terminal();
            var t := if fails then Worker(c, next, then2, false) else next;
            && t.pc == Gone(reason) && t.listed == s.listed
            && t.status == (if fails then Rows.Failed else s.status)
            && t.sent == (if fails then s.sent + [Rows.Failed] else s.sent)
            && t.final == s.final && t.linked == s.linked && |t.file| >= |s.file| && t.file[..|s.file|] == s.file
            && (!s.linked ==> t.part == s.part) && (s.linked ==> t.part == Some(t.file))
  {
    hide Run, Worker, Struck, Inv;
    EveryRunKeeps(c, part0, events);
    var s := Run(c, part0, events);
    StruckFails(c, part0, s, io);
    WorkerKeepsFiles(c, part0, s, io, false);
    FailingEnds(c, part0, Worker(c, s, io, false), then1, then2);
  }

  lemma StruckFails(c: Context, part0: Option<Bytes>, s: State, io: Io)
    requires Inv(c, part0, s) && Struck(c, s, io).Some?
    ensures var t := Worker(c, s, io, false);
            && t == s.(pc := Failing(Struck(c, s, io).value), file := t.file, part := t.part)
            && |t.file| >= |s.file| && t.file[..|s.file|] == s.file
            && t.part == (if s.linked then Some(t.file) else s.part)
  {
    if s.pc.Finishing? && s.status != Rows.Cancelled {
      NeverRefused(c, part0, s);
    }
    hide Files, Told, Received, Stream, Resumed, Extends;
  }

  lemma FailingEnds(c: Context, part0: Option<Bytes>, s: State, then1: Io, then2: Io)
    requires s.pc.Failing?
    ensures var next := Worker(c, s, then1, false);
            var fails := s.listed && !s.status.Terminal();
            var t := if fails then Worker(c, next, then2, false) else next;
            t == s.(pc := Gone(s.pc.reason), status := if fails then Rows.Failed else s.status,
                    sent := if fails then s.sent + [Rows.Failed] else s.sent)
  {
  }

  // ---- What a read brings, and what is told of it ----

  /** A read takes on the file by the source's next bytes: as many as were read and are missing. */
  lemma ReadBrings(c: Context, part0: Option<Bytes>, events: seq<Event>, size: nat)
    requires Run(c, part0, events).pc.Reading? && |Run(c, part0, events).file| < |c.source| && size > 0
    ensures var s := Run(c, part0, events);
            var t := Run(c, part0, events + [Work(Moves(size), false)]);
            var end := if |s.file| + size < |c.source| then |s.file| + size else |c.source|;
            && t.file == s.file + c.source[|s.file|..end] && t.pc == Wrote
            && t.part == (if s.linked then Some(t.file) else s.part)
  {
    assert (events + [Work(Moves(size), false)])[..|events|] == events;
    EveryRunKeeps(c, part0, events);
    hide Run, Inv;
    BytesRead(c, part0, Run(c, part0, events), size);
  }

  lemma BytesRead(c: Context, part0: Option<Bytes>, s: State, size: nat)
    requires Inv(c, part0, s) && s.pc.Reading? && |s.file| < |c.source| && size > 0
    ensures var t := Read(c, s, Moves(size));
            var end := if |s.file| + size < |c.source| then |s.file| + size else |c.source|;
            && t.file == s.file + c.source[|s.file|..end] && t.pc == Wrote
            && t.part == (if s.linked then Some(t.file) else s.part)
  {
    OpenExtends(c, part0, s);
    hide Files, Told, Contents, PcOk;
    NextBytes(c, s, size);
    hide Received, Stream;
  }

  lemma NextBytes(c: Context, s: State, size: nat)
    requires |s.base| <= |s.file| < |c.source| && size > 0
    ensures var end := if |s.file| + size < |c.source| then |s.file| + size else |c.source|;
            Received(c, s, size) == c.source[|s.file|..end] && Stream(c, s.base, |s.file| - |s.base|) != []
  {
    var rest := Stream(c, s.base, |s.file| - |s.base|);
    assert rest == c.source[|s.file|..] + c.trailing;
  }

  /** A report tells the row, and then its channel, the bytes that are in the file and how many there are to be. */
  lemma ProgressIsTold(c: Context, part0: Option<Bytes>, events: seq<Event>, next: Io)
    requires Run(c, part0, events).pc.Wrote? || Run(c, part0, events).pc.Offset?
    requires Run(c, part0, events).listed && Run(c, part0, events).status.InProgress?
    ensures var s := Run(c, part0, events);
            var t := Run(c, part0, events + [Work(Idle, true), Work(next, true)]);
            && t.status == Rows.InProgress(|s.file|, |c.source|) && t.sent == s.sent + [t.status]
            && t.file == s.file && t.part == s.part
            && t.pc == (if s.pc.Wrote? && |s.file| == |c.source| then Finishing else Polling)
  {
    EveryRunKeeps(c, part0, events);
    var all := events + [Work(Idle, true), Work(next, true)];
    assert all[..|all| - 1] == events + [Work(Idle, true)];
    assert (events + [Work(Idle, true)])[..|events|] == events;
    var s := Run(c, part0, events);
    NoMore(c, part0, s);
    hide Inv;
    assert Run(c, part0, all) == Step(c, Step(c, s, Work(Idle, true)), Work(next, true));
    hide Run;
  }

  lemma NoMore(c: Context, part0: Option<Bytes>, s: State)
    requires Inv(c, part0, s) && (s.pc.Wrote? || s.pc.Offset?)
    ensures |s.file| <= |c.source|
  {
    hide Files, Told, PcOk;
  }
}
