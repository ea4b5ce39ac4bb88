/**
 What the transfer machine's invariant means: for one attempt under every
 interleaving, for any number of attempts at the same file, and for an attempt
 nobody disturbs.
 */
module Attempts {
  import opened Wrappers
  import opened Transfer
  import Rows = DownloadSpec

  // ---- One attempt ----

  /** The row is Completed exactly when the `.part` was renamed, and then no `.part` is left. */
  lemma CompletedIsRenamed(c: Context, part0: Option<Bytes>, events: seq<Event>)
    ensures var s := Run(c, part0, events);
            && (s.status == Rows.Completed <==> s.final.Some?)
            && (s.status == Rows.Completed ==> s.part.None?)
  {
    EveryRunKeeps(c, part0, events);
  }

  /** A worker that stopped because it saw the cancel leaves no file, once the canceller has erased too. */
  lemma CancelLeavesNothing(c: Context, part0: Option<Bytes>, events: seq<Event>)
    requires var s := Run(c, part0, events); s.pc.Stopped? && !s.erasing
    ensures var s := Run(c, part0, events); s.status == Rows.Cancelled && s.part.None? && s.final.None?
  {
    EveryRunKeeps(c, part0, events);
  }

  predicate Over(pc: Pc) {
    pc.Finished? || pc.Stopped? || pc.Gone?
  }

  /**
   The channel is told of at most one end, and only of the one the row has. When
   the worker is over it has been told of one, exactly if the row has ended; only a
   row that was taken out of the table has not.
   */
  lemma OneEndIsTold(c: Context, part0: Option<Bytes>, events: seq<Event>)
    ensures var s := Run(c, part0, events);
            && Terminals(s.sent) <= 1
            && (Terminals(s.sent) == 1 ==> s.status.Terminal())
            && (s.status.Terminal() && !s.pc.Sending? ==> Terminals(s.sent) == 1)
            && (Over(s.pc) && s.listed ==> Terminals(s.sent) == 1)
  {
    EveryRunKeeps(c, part0, events);
  }

  /** The terminal status told is the row's. */
  predicate ToldTruly(s: State) {
    && (forall i :: 0 <= i < |s.sent| && s.sent[i].Terminal() ==> s.sent[i] == s.status)
    && (s.pc.Sending? && s.pc.status.Terminal() ==> s.pc.status == s.status)
  }

  lemma {:induction false} TheEndToldIsTheRows(c: Context, part0: Option<Bytes>, events: seq<Event>)
    ensures ToldTruly(Run(c, part0, events))
  {
    if events != [] {
      var n := |events| - 1;
      TheEndToldIsTheRows(c, part0, events[..n]);
      EveryRunKeeps(c, part0, events[..n]);
      StepTellsTruly(c, part0, Run(c, part0, events[..n]), events[n]);
    }
  }

  lemma StepTellsTruly(c: Context, part0: Option<Bytes>, s: State, e: Event)
    requires Inv(c, part0, s) && ToldTruly(s)
    ensures ToldTruly(Step(c, s, e))
  {
    NoneTold(s);
    hide Contents, Files, Told, Worker;
    match e
    case Work(io, report) => WorkTellsTruly(c, s, io, report);
    case _ =>
  }

  lemma WorkTellsTruly(c: Context, s: State, io: Io, report: bool)
    requires PcOk(s) && ToldTruly(s)
    requires !s.status.Terminal() ==> forall i :: 0 <= i < |s.sent| ==> !s.sent[i].Terminal()
    ensures ToldTruly(Worker(c, s, io, report))
  {
    if !s.pc.Sending? {
      WorkOnlyTellsWhenSending(c, s, io, report);
    }
    hide Read, Resumed;
  }

  /** Outside a send the channel hears nothing, and a terminal row does not change. */
  lemma WorkOnlyTellsWhenSending(c: Context, s: State, io: Io, report: bool)
    requires PcOk(s) && !s.pc.Sending?
    ensures var t := Worker(c, s, io, report);
            && t.sent == s.sent
            && (t.pc.Sending? && t.pc.status.Terminal() ==> t.pc.status == t.status)
            && (s.status.Terminal() ==> t.status == s.status)
  {
    hide Read, Resumed, Apply, Live;
    match s.pc
    case Reading => ReadTellsNothing(c, s, io);
    case Offset => ApplyTellsNothing(s, Rows.InProgress(|s.file|, Expected(c)), Polling);
    case Wrote =>
      var next := if |s.file| >= Expected(c) then Finishing else Polling;
      ApplyTellsNothing(s, Rows.InProgress(|s.file|, Expected(c)), next);
    case Failing(reason) => ApplyTellsNothing(s, Rows.Failed, Gone(reason));
    case Finishing => FinishTellsNothing(c, s, io, report);
    case _ =>
  }

  lemma ApplyTellsNothing(s: State, status: Rows.Status, next: Pc)
    requires !next.Sending?
    ensures var t := Apply(s, status, next);
            && t.sent == s.sent
            && (t.pc.Sending? ==> t.pc.status == t.status)
            && (s.status.Terminal() ==> t.status == s.status)
  {
  }

  lemma FinishTellsNothing(c: Context, s: State, io: Io, report: bool)
    requires s.pc.Finishing?
    ensures var t := Worker(c, s, io, report);
            && t.sent == s.sent
            && (t.pc.Sending? && t.pc.status.Terminal() ==> t.pc.status == t.status)
            && (s.status.Terminal() ==> t.status == s.status)
  {
  }

  lemma ReadTellsNothing(c: Context, s: State, io: Io)
    ensures var t := Read(c, s, io); t.sent == s.sent && t.status == s.status && !t.pc.Sending?
  {
    hide Received, Stream;
  }

  /** While the row is live nothing terminal was sent. */
  lemma NoneTold(s: State)
    requires Told(s)
    ensures !s.status.Terminal() ==> forall i :: 0 <= i < |s.sent| ==> !s.sent[i].Terminal()
  {
    if !s.status.Terminal() {
      NoTerminals(s.sent);
    }
  }

  lemma {:induction false} NoTerminals(sent: seq<Rows.Status>)
    requires Terminals(sent) == 0
    ensures forall i :: 0 <= i < |sent| ==> !sent[i].Terminal()
  {
    if sent != [] {
      NoTerminals(sent[..|sent| - 1]);
    }
  }

  /** What a resumed transfer may start from: no `.part`, one it restarts, or a prefix of the source. */
  predicate Usable(c: Context, part: Option<Bytes>) {
    part.Some? && |part.value| < Expected(c) ==> part.value == c.source[..|part.value|]
  }

  /** A finished file is the source exactly when the attempt began from a usable `.part`. */
  lemma FinishedIsTheSource(c: Context, part0: Option<Bytes>, events: seq<Event>)
    requires Run(c, part0, events).status == Rows.Completed
    ensures Run(c, part0, events).final == Some(c.source) <==> Usable(c, part0)
  {
    EveryRunKeeps(c, part0, events);
    var base := Resumed(part0, Expected(c));
    var f := base + c.source[|base|..];
    assert f[..|base|] == base;
    assert c.source == c.source[..|base|] + c.source[|base|..];
    if part0.Some? && |part0.value| < Expected(c) {
      assert base == part0.value;
    }
  }

  /** A `.part` with a foreign byte in it is resumed, completed and renamed all the same. */
  lemma AForeignPartIsFinished()
    ensures exists events ::
              var s := Run(Context([1, 2], []), Some([9]), events);
              s.status == Rows.Completed && s.final.Some? && s.final != Some([1, 2])
  {
    var c, part: Option<Bytes> := Context([1, 2], []), Some([9]);
    var events := UndisturbedCompletes(c, part, 1);
    assert part.value[0] != c.source[..1][0];
    assert !Usable(c, part);
    FinishedIsTheSource(c, part, events);
    CompletedIsRenamed(c, part, events);
    hide Run;
  }

  /** In every state of an attempt from a usable `.part`, the `.part` is usable, and the handle is never past the end. */
  lemma PartStaysUsable(c: Context, part0: Option<Bytes>, events: seq<Event>)
    requires Usable(c, part0)
    ensures var s := Run(c, part0, events);
            && Usable(c, s.part)
            && (Open(s.pc) ==> |s.file| <= Expected(c) && s.file == c.source[..|s.file|])
  {
    hide Run, Usable, Inv;
    EveryRunKeeps(c, part0, events);
    StaysUsable(c, part0, Run(c, part0, events));
  }

  lemma StaysUsable(c: Context, part0: Option<Bytes>, s: State)
    requires Inv(c, part0, s) && Usable(c, part0)
    ensures Usable(c, s.part)
    ensures Open(s.pc) ==> |s.file| <= Expected(c) && s.file == c.source[..|s.file|]
  {
    hide PcOk, Files, Told, Resumed, Extends;
    if s.linked || Open(s.pc) {
      EachBaseIsAPrefix(c, part0, s);
      Fronts(c.source, |s.base|, |s.file|);
    }
  }

  lemma Fronts(all: Bytes, i: nat, j: nat)
    requires i <= j <= |all|
    ensures all[..i] + all[i..j] == all[..j]
  {
  }

  lemma EachBaseIsAPrefix(c: Context, part0: Option<Bytes>, s: State)
    requires Inv(c, part0, s) && Usable(c, part0) && (s.linked || Open(s.pc))
    ensures |s.base| <= |s.file| <= Expected(c) && s.base == c.source[..|s.base|]
    ensures s.file == s.base + c.source[|s.base|..|s.file|]
  {
  }

  // ---- Any number of attempts ----

  /** An attempt: what followed the source on its connection, and its interleaving. */
  datatype Attempt = Attempt(trailing: Bytes, events: seq<Event>)

  function At(source: Bytes, a: Attempt): Context {
    Context(source, a.trailing)
  }

  /** The `.part` left on disk by these attempts, each at whatever point it was given up. */
  function Left(source: Bytes, part: Option<Bytes>, attempts: seq<Attempt>): Option<Bytes> {
    if attempts == [] then part
    else
      var n := |attempts| - 1;
      Run(At(source, attempts[n]), Left(source, part, attempts[..n]), attempts[n].events).part
  }

  /** Over any number of attempts the `.part` stays usable, and the attempt that finishes gives the source. */
  lemma {:induction false} EveryAttemptIsSound(source: Bytes, part: Option<Bytes>, attempts: seq<Attempt>, last: Attempt)
    requires Usable(Context(source, []), part)
    ensures Usable(At(source, last), Left(source, part, attempts))
    ensures var s := Run(At(source, last), Left(source, part, attempts), last.events);
            s.status == Rows.Completed ==> s.final == Some(source)
  {
    if attempts != [] {
      var n := |attempts| - 1;
      EveryAttemptIsSound(source, part, attempts[..n], attempts[n]);
      PartStaysUsable(At(source, attempts[n]), Left(source, part, attempts[..n]), attempts[n].events);
    }
    var before := Left(source, part, attempts);
    if Run(At(source, last), before, last.events).status == Rows.Completed {
      FinishedIsTheSource(At(source, last), before, last.events);
    }
  }

  // ---- An attempt nobody disturbs ----

  /** The worker alone, with reads of up to `size` bytes that all succeed. */
  function Alone(c: Context, s: State, size: nat, steps: nat): State {
    if steps == 0 then s else Worker(c, Alone(c, s, size, steps - 1), Moves(size), false)
  }

  function Quiet(size: nat, steps: nat): seq<Event> {
    seq(steps, _ => Work(Moves(size), false))
  }

  lemma {:induction false} AloneIsARun(c: Context, part: Option<Bytes>, size: nat, steps: nat)
    ensures Run(c, part, Quiet(size, steps)) == Alone(c, Initial(c, part), size, steps)
  {
    if steps > 0 {
      AloneIsARun(c, part, size, steps - 1);
      assert Quiet(size, steps)[..steps - 1] == Quiet(size, steps - 1);
    }
  }

  lemma {:induction false} AloneThen(c: Context, s: State, size: nat, m: nat, n: nat)
    ensures Alone(c, s, size, m + n) == Alone(c, Alone(c, s, size, m), size, n)
  {
    hide Worker;
    if n > 0 {
      AloneThen(c, s, size, m, n - 1);
    }
  }

  predicate Going(c: Context, s: State) {
    s.pc.Polling? && s.listed && s.status.InProgress? && s.linked && s.part == Some(s.file) && Extends(c, s.base, s.file)
  }

  /** One turn of the loop: poll, read, write. It brings at least one byte. */
  lemma OneTurn(c: Context, s: State, size: nat)
    requires Going(c, s) && size > 0 && |s.file| < Expected(c)
    ensures var t := Alone(c, s, size, 3);
            && |t.file| > |s.file|
            && t.listed && t.status.InProgress? && t.linked && t.part == Some(t.file) && Extends(c, t.base, t.file)
            && t.pc == if |t.file| >= Expected(c) then Finishing else Polling
  {
    var one := Alone(c, s, size, 1);
    assert Alone(c, s, size, 0) == s;
    assert one == s.(pc := Reading);
    var data := Received(c, s, size);
    ReceivedExtends(c, s, size, |data|);
    assert data[..|data|] == data;
    MoreToRead(c, s, size);
    var two := Alone(c, s, size, 2);
    assert two == Read(c, one, Moves(size));
    assert Received(c, one, size) == data;
    hide Received, Stream, Extends;
  }

  lemma MoreToRead(c: Context, s: State, size: nat)
    requires Extends(c, s.base, s.file) && size > 0 && |s.file| < Expected(c)
    ensures Stream(c, s.base, Minus(|s.file|, |s.base|)) != []
    ensures |Received(c, s, size)| > 0
  {
    var all := c.source[|s.base|..] + c.trailing;
    var rest := Stream(c, s.base, Minus(|s.file|, |s.base|));
    assert |rest| == |all| - (|s.file| - |s.base|);
  }

  lemma {:induction false} GoingFinishes(c: Context, s: State, size: nat) returns (steps: nat)
    requires Going(c, s) && size > 0
    ensures Alone(c, s, size, steps).status == Rows.Completed
    decreases Minus(Expected(c), |s.file|)
  {
    hide Stream, Received, Read;
    if |s.file| >= Expected(c) {
      Ends(c, s, size);
      steps := 2;
    } else {
      OneTurn(c, s, size);
      var t := Alone(c, s, size, 3);
      if |t.file| >= Expected(c) {
        steps := 4;
        AloneThen(c, s, size, 3, 1);
        FinishEnds(c, t, size);
      } else {
        var more := GoingFinishes(c, t, size);
        AloneThen(c, s, size, 3, more);
        steps := 3 + more;
      }
    }
  }

  lemma FinishEnds(c: Context, s: State, size: nat)
    requires s.pc.Finishing? && s.listed && s.status.InProgress? && s.part == Some(s.file) && |s.file| >= Expected(c)
    ensures Alone(c, s, size, 1).status == Rows.Completed
  {
    assert Alone(c, s, size, 0) == s;
  }

  lemma Ends(c: Context, s: State, size: nat)
    requires Going(c, s) && |s.file| >= Expected(c)
    ensures Alone(c, s, size, 2).status == Rows.Completed
  {
    assert Alone(c, s, size, 0) == s;
    assert Alone(c, s, size, 1) == s.(pc := Finishing);
  }

  /** From any `.part`, with any size of read, an attempt nobody cancels and no fault hits completes. */
  lemma UndisturbedCompletes(c: Context, part: Option<Bytes>, size: nat) returns (events: seq<Event>)
    requires size > 0
    ensures Run(c, part, events).status == Rows.Completed
    ensures forall i :: 0 <= i < |events| ==> events[i].Work? && events[i].io == Moves(size)
  {
    hide Worker, Run, Initial, Alone, Going;
    var start := Initial(c, part);
    var s := Alone(c, start, size, 4);
    Begins(c, part, size);
    var more := GoingFinishes(c, s, size);
    AloneThen(c, start, size, 4, more);
    AloneIsARun(c, part, size, 4 + more);
    events := Quiet(size, 4 + more);
  }

  lemma Begins(c: Context, part: Option<Bytes>, size: nat)
    ensures Going(c, Alone(c, Initial(c, part), size, 4))
  {
    var s := Initial(c, part);
    assert Alone(c, s, size, 0) == s;
    assert Alone(c, s, size, 1) == s.(pc := Opening);
    var base := Resumed(part, Expected(c));
    assert Alone(c, s, size, 2) == s.(pc := Offset, linked := true, base := base, file := base, part := Some(base));
    assert Extends(c, base, base);
    hide Resumed, Extends;
  }

  // ---- When a cancelled transfer leaves a `.part` ----

  predicate Erased(s: State) {
    s.status == Rows.Cancelled && !s.erasing
  }

  /** The worker opened its `.part` after the canceller had erased it: it read the row before the cancel. */
  predicate OpenedLate(c: Context, part0: Option<Bytes>, events: seq<Event>) {
    events != [] &&
    var n := |events| - 1;
    var s := Run(c, part0, events[..n]);
    || OpenedLate(c, part0, events[..n])
    || (events[n].Work? && s.pc.Opening? && !events[n].io.Error? && Erased(s))
  }

  predicate Marked(s: State, late: bool) {
    && (late ==> Erased(s) && !Unopened(s.pc))
    && (Erased(s) ==> (s.part.Some? <==> late && !s.pc.Stopped?) && (s.linked <==> s.part.Some?))
  }

  lemma StepMarks(c: Context, part0: Option<Bytes>, s: State, e: Event, late: bool)
    requires Inv(c, part0, s) && Marked(s, late)
    ensures Marked(Step(c, s, e), late || (e.Work? && s.pc.Opening? && !e.io.Error? && Erased(s)))
  {
    hide Extends, Told, Read, Resumed, Worker;
    match e
    case Work(io, report) => WorkMarks(c, part0, s, io, report, late);
    case _ =>
  }

  lemma WorkMarks(c: Context, part0: Option<Bytes>, s: State, io: Io, report: bool, late: bool)
    requires Inv(c, part0, s) && Marked(s, late)
    ensures Marked(Worker(c, s, io, report), late || (s.pc.Opening? && !io.Error? && Erased(s)))
  {
    hide Extends, Told, Read, Resumed, Contents;
    if s.pc.Reading? {
      ReadMarks(c, s, io, late);
    }
  }

  lemma ReadMarks(c: Context, s: State, io: Io, late: bool)
    requires Marked(s, late) && s.pc.Reading?
    ensures Marked(Read(c, s, io), late)
  {
    hide Received, Stream;
  }

  /** Once the cancel has erased, a `.part` is there exactly if the worker opened it late and has not discarded it. */
  lemma {:induction false} WhenACancelLeavesAPart(c: Context, part0: Option<Bytes>, events: seq<Event>)
    ensures var s := Run(c, part0, events);
            Marked(s, OpenedLate(c, part0, events))
  {
    if events != [] {
      var n := |events| - 1;
      WhenACancelLeavesAPart(c, part0, events[..n]);
      EveryRunKeeps(c, part0, events[..n]);
      StepMarks(c, part0, Run(c, part0, events[..n]), events[n], OpenedLate(c, part0, events[..n]));
    }
  }

  /** It happens: a worker that opens late and then dies on its socket leaves the `.part` for good. */
  lemma ADyingWorkerLeavesAPart()
    ensures var s := Run(Context([1], []), None,
                         [Work(Idle, false), Cancel, Erase, Work(Idle, false), Work(Error, false), Work(Idle, false)]);
            s.pc == Gone(StreamError) && Erased(s) && s.part.Some?
  {
    var c := Context([1], []);
    var es := [Work(Idle, false), Cancel, Erase, Work(Idle, false), Work(Error, false), Work(Idle, false)];
    assert es[..5] == [Work(Idle, false), Cancel, Erase, Work(Idle, false), Work(Error, false)];
    assert es[..5][..4] == [Work(Idle, false), Cancel, Erase, Work(Idle, false)];
    assert es[..5][..4][..3] == [Work(Idle, false), Cancel, Erase];
    assert es[..5][..4][..3][..2] == [Work(Idle, false), Cancel];
    assert es[..5][..4][..3][..2][..1] == [Work(Idle, false)];
    assert es[..5][..4][..3][..2][..1][..0] == [];
    var s0 := Run(c, None, []);
    var s1 := Run(c, None, [Work(Idle, false)]);
    assert s1 == s0.(pc := Opening);
    var s2 := Run(c, None, [Work(Idle, false), Cancel]);
    assert s2 == s1.(status := Rows.Cancelled, sent := [Rows.Cancelled], erasing := true);
    var s3 := Run(c, None, [Work(Idle, false), Cancel, Erase]);
    assert s3 == s2.(erasing := false);
    var s4 := Run(c, None, [Work(Idle, false), Cancel, Erase, Work(Idle, false)]);
    assert s4.part == Some([]) && s4.pc == Offset && s4.status == Rows.Cancelled && !s4.erasing;
    var s5 := Run(c, None, es[..5]);
    assert s5.part == Some([]) && s5.pc == Failing(StreamError) && s5.status == Rows.Cancelled && !s5.erasing;
  }
}
