/**
 One transfer worker and the user, interleaved. Every lock-held section, file
 operation and channel send is one step; the user may cancel, pause and resume
 between any two of them, and anybody may take the row out of the table. Files are byte sequences; the peer serves `source`
 from the offset it was asked for, in chunks of any size, perhaps followed by
 more bytes.
 */
module Transfer {
  import opened Wrappers
  import opened DownloadSpec

  type Bytes = seq<int>

  /** Why a worker gave up, if not by the user's cancel. */
  datatype Reason = FileError | StreamError | Incomplete | RowMissing | RowRefused

  /** Where the worker is. `Sending` has applied a status and not yet told the channel. */
  datatype Pc =
    | Starting
    | Opening
    | Offset
    | Sending(status: Status, next: Pc)
    | Polling
    | Reading
    | Wrote
    | Finishing
    | FinishWaiting
    | Discarding
    | Failing(reason: Reason)
    | Finished
    | Stopped
    | Gone(reason: Reason)

  /**
   `part` and `final` are the files on disk; `file` is what the worker has written
   to its open handle, which stays writable after the path is removed, and `base`
   is what the `.part` held when it was opened. `erasing` is set while a cancel
   still has to remove the `.part`. `status` is the row's as long as it is `listed`,
   and afterwards the last one it had.
   */
  datatype State = State(
    status: Status,
    listed: bool,
    part: Option<Bytes>,
    final: Option<Bytes>,
    pc: Pc,
    linked: bool,
    base: Bytes,
    file: Bytes,
    erasing: bool,
    sent: seq<Status>)

  /** What is fixed for the transfer: the bytes the peer has, and what may follow them on the wire. */
  datatype Context = Context(source: Bytes, trailing: Bytes)

  function Expected(c: Context): nat {
    |c.source|
  }

  /** A claimed row, a `.part` or none, and no final file. */
  function Initial(c: Context, part: Option<Bytes>): State {
    State(InProgress(0, Expected(c)), true, part, None, Starting, false, [], [], false, [])
  }

  /** What is kept of a `.part` found on disk: nothing when it is as long as the file or longer. */
  function Resumed(part: Option<Bytes>, expected: nat): (b: Bytes)
    ensures |b| < expected || b == []
  {
    if part.Some? && |part.value| < expected then part.value else []
  }

  function Min(a: nat, b: nat): nat {
    if a < b then a else b
  }

  function Minus(a: nat, b: nat): nat {
    if a > b then a - b else 0
  }

  /** The bytes still to come on the stream after `received` of them. */
  function Stream(c: Context, base: Bytes, received: nat): Bytes {
    var all := (if |base| <= |c.source| then c.source[|base|..] else []) + c.trailing;
    if received <= |all| then all[received..] else []
  }

  /**
   How the worker's next file or socket operation goes: it moves up to `size`
   bytes, times out, finds the connection closed, fails, or fails after writing
   only `kept` of the bytes it read.
   */
  datatype Io = Moves(size: nat) | Idle | Closed | Error | Torn(size: nat, kept: nat)

  datatype Event =
    | Work(io: Io, report: bool)
    | Cancel
    | Erase
    | Pause
    | Resume
    | Unlist

  /** The row after `update_status`, and what to send. */
  function Apply(s: State, status: Status, next: Pc): State {
    if s.listed && Accepts(s.status, status) then s.(status := status, pc := Sending(status, next)) else s.(pc := next)
  }

  function Put(s: State, file: Bytes): State {
    s.(file := file, part := if s.linked then Some(file) else s.part)
  }

  /** What of the next `size` bytes on the stream goes to the file: nothing past the expected length. */
  function Received(c: Context, s: State, size: nat): Bytes {
    var rest := Stream(c, s.base, Minus(|s.file|, |s.base|));
    var data := rest[..Min(size, |rest|)];
    data[..Min(|data|, Minus(Expected(c), |s.file|))]
  }

  /** One read from the stream, and the write of what it brought. */
  function Read(c: Context, s: State, io: Io): State {
    match io
    case Idle => s.(pc := Polling)
    case Closed => s.(pc := Finishing)
    case Error => s.(pc := Failing(StreamError))
    case Moves(size) =>
      var data := Received(c, s, size);
      if size == 0 || Stream(c, s.base, Minus(|s.file|, |s.base|)) == [] then s.(pc := Finishing)
      else Put(s, s.file + data).(pc := Wrote)
    case Torn(size, kept) =>
      var data := Received(c, s, size);
      Put(s, s.file + data[..Min(kept, |data|)]).(pc := Failing(FileError))
  }

  /** One step of the worker. `io` says how its file or socket operation goes, if it has one. */
  function Worker(c: Context, s: State, io: Io, report: bool): State {
    match s.pc
    case Starting =>
      if !s.listed then s.(pc := Failing(RowMissing))
      else if s.status == Cancelled then s.(pc := Stopped)
      else if s.status.Paused? then s
      else s.(pc := Opening)
    case Opening =>
      if io.Error? then s.(pc := Failing(FileError))
      else
        var base := Resumed(s.part, Expected(c));
        s.(pc := Offset, linked := true, base := base, file := base, part := Some(base))
    case Offset =>
      if io.Error? then s.(pc := Failing(StreamError))
      else Apply(s, InProgress(|s.file|, Expected(c)), Polling)
    case Sending(status, next) => s.(sent := s.sent + [status], pc := next)
    case Polling =>
      if !s.listed then s.(pc := Failing(RowMissing))
      else if s.status == Cancelled then s.(pc := Discarding)
      else if s.status.Paused? then s
      else if |s.file| >= Expected(c) then s.(pc := Finishing)
      else s.(pc := Reading)
    case Reading => Read(c, s, io)
    case Wrote =>
      var next := if |s.file| >= Expected(c) then Finishing else Polling;
      if report then Apply(s, InProgress(|s.file|, Expected(c)), next) else s.(pc := next)
    case Finishing =>
      if !s.listed then s.(pc := Failing(RowMissing))
      else if s.status == Cancelled then s.(pc := Discarding)
      else if s.status.Paused? then s.(pc := FinishWaiting)
      else if |s.file| < Expected(c) then s.(pc := Failing(Incomplete))
      else if io.Error? || s.part.None? then s.(pc := Failing(FileError))
      else
        var renamed := s.(final := s.part, part := None, linked := false);
        if Accepts(s.status, Completed)
        then renamed.(status := Completed, pc := Sending(Completed, Finished))
        else renamed.(pc := Failing(RowRefused))
    case FinishWaiting =>
      if !s.listed then s.(pc := Failing(RowMissing))
      else if s.status == Cancelled then s.(pc := Discarding)
      else if s.status.Paused? then s
      else s.(pc := Finishing)
    case Discarding => s.(part := None, linked := false, pc := Stopped)
    case Failing(reason) => Apply(s, Failed, Gone(reason))
    case Finished => s
    case Stopped => s
    case Gone(_) => s
  }

  function Step(c: Context, s: State, e: Event): State {
    match e
    case Work(io, report) => Worker(c, s, io, report)
    case Cancel =>
      if !s.listed || s.status.Terminal() then s
      else s.(status := Cancelled, sent := s.sent + [Cancelled], erasing := true)
    case Erase => if s.erasing then s.(erasing := false, part := None, linked := false) else s
    case Pause =>
      if s.listed && s.status.InProgress? then
        var to := Paused(s.status.bytes, s.status.total);
        s.(status := to, sent := s.sent + [to])
      else s
    case Resume =>
      if s.listed && s.status.Paused? then
        var to := InProgress(s.status.bytes, s.status.total);
        s.(status := to, sent := s.sent + [to])
      else s
    case Unlist => s.(listed := false)
  }

  function Run(c: Context, part: Option<Bytes>, events: seq<Event>): State {
    if events == [] then Initial(c, part)
    else Step(c, Run(c, part, events[..|events| - 1]), events[|events| - 1])
  }

  // ---- What every interleaving keeps ----

  function Terminals(sent: seq<Status>): nat {
    if sent == [] then 0
    else Terminals(sent[..|sent| - 1]) + (if sent[|sent| - 1].Terminal() then 1 else 0)
  }

  function Waiting(pc: Pc): nat {
    if pc.Sending? && pc.status.Terminal() then 1 else 0
  }

  /** The worker's handle is open. */
  predicate Open(pc: Pc) {
    match pc
    case Starting => false
    case Opening => false
    case Sending(_, next) => next == Polling || next == Finishing
    case Finished => false
    case Stopped => false
    case Gone(_) => false
    case Failing(_) => false
    case _ => true
  }

  /** What was resumed and then the peer's next bytes, no more than expected. */
  predicate Extends(c: Context, base: Bytes, file: Bytes) {
    |base| <= |file| <= Expected(c) && file == base + c.source[|base|..|file|]
  }

  /** The handle, and the `.part` as long as it is linked, hold what was resumed and what came after. */
  predicate Contents(c: Context, part0: Option<Bytes>, s: State) {
    && (Open(s.pc) ==> Extends(c, s.base, s.file))
    && (s.linked ==> s.part == Some(s.file) && Extends(c, s.base, s.file))
    && (s.part.Some? && !s.linked ==> s.part == part0)
    && (Unopened(s.pc) ==> s.base == [] && (s.status != Cancelled ==> s.part == part0))
    && (!Unopened(s.pc) ==> s.base == [] || s.base == Resumed(part0, Expected(c)))
    && (Open(s.pc) && s.status != Cancelled ==> s.linked && s.base == Resumed(part0, Expected(c)))
  }

  predicate Unopened(pc: Pc) {
    pc.Starting? || pc.Opening?
  }

  predicate Files(c: Context, part0: Option<Bytes>, s: State) {
    && (s.final.Some? <==> s.status == Completed)
    && (s.final.Some? ==> s.final.value == Resumed(part0, Expected(c)) + c.source[|Resumed(part0, Expected(c))|..])
    && (s.status == Completed ==> s.part.None? && !s.linked)
    && (s.erasing ==> s.status == Cancelled)
    && (s.pc.Stopped? ==> !s.linked && (s.part.None? || s.erasing))
    && (Unopened(s.pc) ==> !s.linked && (s.status == Cancelled && !s.erasing ==> s.part.None?))
  }

  /** At most one terminal status is ever told, and it is told once the row is terminal. */
  predicate Told(s: State) {
    Terminals(s.sent) + Waiting(s.pc) == if s.status.Terminal() then 1 else 0
  }

  /** While the worker runs, only a cancel makes the row terminal. */
  predicate PcOk(s: State) {
    match s.pc
    case Sending(status, next) =>
      || (status.InProgress? && (next == Polling || next == Finishing) && Live(s))
      || (status == Completed && next == Finished && s.status == Completed)
      || (status == Failed && next.Gone? && s.status == Failed)
    case Discarding => s.status == Cancelled
    case Stopped => s.status == Cancelled
    case Finished => s.status == Completed
    case Gone(_) => s.status == Failed || s.status == Cancelled || !s.listed
    case Failing(reason) => reason != RowRefused && Live(s)
    case _ => Live(s)
  }

  predicate Live(s: State) {
    s.status.InProgress? || s.status.Paused? || s.status == Cancelled
  }

  predicate Inv(c: Context, part0: Option<Bytes>, s: State) {
    PcOk(s) && Contents(c, part0, s) && Files(c, part0, s) && Told(s)
  }

  // ---- Preservation ----

  lemma ReceivedExtends(c: Context, s: State, size: nat, kept: nat)
    requires Extends(c, s.base, s.file)
    ensures var data := Received(c, s, size);
            Extends(c, s.base, s.file + data[..Min(kept, |data|)])
  {
    hide Received;
    var data := Received(c, s, size);
    ReceivedIs(c, s, size);
    MoreFollows(c.source, |s.base|, |s.file|, |data|, Min(kept, |data|));
  }

  lemma MoreFollows(all: Bytes, i: nat, j: nat, size: nat, n: nat)
    requires i <= j <= j + size <= |all| && n <= size
    ensures all[i..j] + all[j..j + size][..n] == all[i..j + n]
  {
  }

  /** What is read is the peer's next bytes. */
  lemma ReceivedIs(c: Context, s: State, size: nat)
    requires Extends(c, s.base, s.file)
    ensures var data := Received(c, s, size);
            |s.file| + |data| <= Expected(c) && data == c.source[|s.file|..|s.file| + |data|]
  {
    var data := Received(c, s, size);
    var all := c.source[|s.base|..] + c.trailing;
    var from := |s.file| - |s.base|;
    forall k | 0 <= k < |data|
      ensures data[k] == c.source[|s.file| + k]
    {
      assert data[k] == all[from..][k] == all[from + k];
    }
  }

  lemma ToldMore(sent: seq<Status>, status: Status)
    ensures Terminals(sent + [status]) == Terminals(sent) + (if status.Terminal() then 1 else 0)
  {
    assert (sent + [status])[..|sent|] == sent;
  }

  lemma SendingKeepsPc(c: Context, s: State, io: Io, report: bool)
    requires PcOk(s) && Told(s) && s.pc.Sending?
    ensures PcOk(Worker(c, s, io, report)) && Told(Worker(c, s, io, report))
  {
    hide Terminals, Read, Resumed, Apply;
    ToldMore(s.sent, s.pc.status);
  }

  lemma WorkerKeepsPc(c: Context, part0: Option<Bytes>, s: State, io: Io, report: bool)
    requires Inv(c, part0, s)
    ensures PcOk(Worker(c, s, io, report)) && Told(Worker(c, s, io, report))
  {
    if s.pc.Sending? {
      SendingKeepsPc(c, s, io, report);
    } else {
      WorkingKeepsPc(c, part0, s, io, report);
    }
  }

  lemma ReadKeepsPc(c: Context, s: State, io: Io)
    requires PcOk(s) && Told(s) && s.pc.Reading?
    ensures PcOk(Read(c, s, io)) && Told(Read(c, s, io))
  {
    hide Received, Stream, Terminals;
  }

  lemma FinishKeepsPc(c: Context, part0: Option<Bytes>, s: State, io: Io, report: bool)
    requires Inv(c, part0, s) && s.pc.Finishing?
    ensures PcOk(Worker(c, s, io, report)) && Told(Worker(c, s, io, report))
  {
    if s.status != Cancelled && s.listed {
      NeverRefused(c, part0, s);
    }
    hide Contents, Files, Terminals;
  }

  lemma ApplyKeepsPc(s: State, status: Status, next: Pc)
    requires Told(s) && Live(s) && Waiting(s.pc) == 0 && Waiting(next) == 0
    requires (status.InProgress? && (next == Polling || next == Finishing)) || (status == Failed && next.Gone?)
    ensures PcOk(Apply(s, status, next)) && Told(Apply(s, status, next))
  {
    hide Terminals;
  }

  lemma WorkingKeepsPc(c: Context, part0: Option<Bytes>, s: State, io: Io, report: bool)
    requires Inv(c, part0, s) && !s.pc.Sending?
    ensures PcOk(Worker(c, s, io, report)) && Told(Worker(c, s, io, report))
  {
    hide Contents, Files, Terminals, Read, Apply, Resumed;
    match s.pc
    case Reading => ReadKeepsPc(c, s, io);
    case Finishing => FinishKeepsPc(c, part0, s, io, report);
    case Offset => ApplyKeepsPc(s, InProgress(|s.file|, Expected(c)), Polling);
    case Wrote => ApplyKeepsPc(s, InProgress(|s.file|, Expected(c)), if |s.file| >= Expected(c) then Finishing else Polling);
    case Failing(reason) => ApplyKeepsPc(s, Failed, Gone(reason));
    case _ =>
  }

  /** A finishing worker that is not cancelled or paused finds its row in progress and its `.part` in place. */
  lemma NeverRefused(c: Context, part0: Option<Bytes>, s: State)
    requires Inv(c, part0, s) && s.status != Cancelled
    ensures s.pc.Finishing? && !s.status.Paused? ==> Accepts(s.status, Completed) && s.part == Some(s.file)
  {
    hide Extends, Resumed;
  }

  lemma ReadKeeps(c: Context, part0: Option<Bytes>, s: State, io: Io)
    requires Inv(c, part0, s) && s.pc.Reading?
    ensures Contents(c, part0, Read(c, s, io)) && Files(c, part0, Read(c, s, io))
  {
    hide Received, Stream, Extends, Resumed, Contents, Files;
    match io
    case Idle => MovingOnKeeps(c, part0, s, Polling);
    case Closed => MovingOnKeeps(c, part0, s, Finishing);
    case Error => MovingOnKeeps(c, part0, s, Failing(StreamError));
    case Moves(size) =>
      var data := Received(c, s, size);
      MovingOnKeeps(c, part0, s, Finishing);
      PutKeeps(c, part0, s, size, |data|, Wrote);
      assert data[..|data|] == data;
    case Torn(size, kept) => PutKeeps(c, part0, s, size, kept, Failing(FileError));
  }

  /** Bytes that arrive in order extend the handle's file, and the `.part` while it is linked. */
  lemma PutKeeps(c: Context, part0: Option<Bytes>, s: State, size: nat, kept: nat, pc: Pc)
    requires Contents(c, part0, s) && Files(c, part0, s) && s.pc.Reading? && (pc == Wrote || pc == Failing(FileError))
    requires s.status != Completed
    ensures var data := Received(c, s, size);
            var t := Put(s, s.file + data[..Min(kept, |data|)]).(pc := pc);
            Contents(c, part0, t) && Files(c, part0, t)
  {
    ReceivedExtends(c, s, size, kept);
    hide Received, Stream, Extends, Resumed;
  }

  lemma OpenKeeps(c: Context, part0: Option<Bytes>, s: State, io: Io)
    requires Inv(c, part0, s) && s.pc.Opening?
    ensures Contents(c, part0, Worker(c, s, io, false)) && Files(c, part0, Worker(c, s, io, false))
  {
    var base := Resumed(s.part, Expected(c));
    assert Extends(c, base, base);
    hide Extends;
  }

  lemma FinishKeeps(c: Context, part0: Option<Bytes>, s: State, io: Io)
    requires Inv(c, part0, s) && s.pc.Finishing?
    ensures Contents(c, part0, Worker(c, s, io, false)) && Files(c, part0, Worker(c, s, io, false))
  {
    hide Contents, Files, Told;
    var t := Worker(c, s, io, false);
    if t.pc.Sending? || t.pc == Failing(RowRefused) {
      NeverRefused(c, part0, s);
      RenameKeeps(c, part0, s);
    } else {
      MovingOnKeeps(c, part0, s, t.pc);
    }
  }

  lemma RenameKeeps(c: Context, part0: Option<Bytes>, s: State)
    requires Inv(c, part0, s) && s.pc.Finishing? && s.status != Cancelled && |s.file| >= Expected(c) && s.part == Some(s.file)
    ensures var t := s.(final := s.part, part := None, linked := false, status := Completed,
                        pc := Sending(Completed, Finished));
            Contents(c, part0, t) && Files(c, part0, t)
  {
    assert c.source[|s.base|..|s.file|] == c.source[|s.base|..];
    hide Resumed, Told;
  }

  /** A step that moves the worker on without touching a file keeps what is said of the files. */
  lemma MovingOnKeeps(c: Context, part0: Option<Bytes>, s: State, pc: Pc)
    requires Contents(c, part0, s) && Files(c, part0, s)
    requires !Unopened(pc) || pc == s.pc || (s.pc.Starting? && pc.Opening?)
    requires Unopened(s.pc) ==> Unopened(pc) || (s.pc.Starting? && (pc.Stopped? || pc.Failing?))
    requires Open(pc) ==> Open(s.pc)
    requires pc.Stopped? ==> s.pc.Starting? && s.status == Cancelled
    ensures Contents(c, part0, s.(pc := pc)) && Files(c, part0, s.(pc := pc))
  {
    hide Extends, Resumed;
  }

  /** A live row may change its progress, or fail, without touching a file. */
  lemma ReportKeeps(c: Context, part0: Option<Bytes>, s: State, status: Status, pc: Pc)
    requires Contents(c, part0, s) && Files(c, part0, s)
    requires status.InProgress? || status == Failed
    requires Accepts(s.status, status) && !Unopened(s.pc) && !Unopened(pc) && !pc.Stopped?
    requires Open(pc) ==> Open(s.pc) && s.status != Cancelled
    ensures var t := s.(status := status, pc := pc); Contents(c, part0, t) && Files(c, part0, t)
  {
    hide Extends, Resumed;
  }

  lemma ApplyKeeps(c: Context, part0: Option<Bytes>, s: State, status: Status, next: Pc)
    requires Contents(c, part0, s) && Files(c, part0, s)
    requires || (status.InProgress? && (next == Polling || next == Finishing) && Open(s.pc))
             || (status == Failed && next.Gone? && s.pc.Failing?)
    ensures Contents(c, part0, Apply(s, status, next)) && Files(c, part0, Apply(s, status, next))
  {
    if Accepts(s.status, status) {
      ReportKeeps(c, part0, s, status, Sending(status, next));
    } else {
      MovingOnKeeps(c, part0, s, next);
    }
    hide Contents, Files;
  }

  lemma DiscardKeeps(c: Context, part0: Option<Bytes>, s: State)
    requires Inv(c, part0, s) && s.pc.Discarding?
    ensures var t := s.(part := None, linked := false, pc := Stopped); Contents(c, part0, t) && Files(c, part0, t)
  {
    hide Extends, Resumed;
  }

  lemma SendKeeps(c: Context, part0: Option<Bytes>, s: State)
    requires Inv(c, part0, s) && s.pc.Sending?
    ensures var t := s.(sent := s.sent + [s.pc.status], pc := s.pc.next);
            Contents(c, part0, t) && Files(c, part0, t)
  {
    hide Extends, Resumed, Terminals;
  }

  lemma OtherKeeps(c: Context, part0: Option<Bytes>, s: State, io: Io, report: bool)
    requires Inv(c, part0, s) && !s.pc.Reading? && !s.pc.Opening? && !s.pc.Finishing?
    ensures Contents(c, part0, Worker(c, s, io, report)) && Files(c, part0, Worker(c, s, io, report))
  {
    hide Contents, Files, Apply, Told, Resumed;
    match s.pc
    case Sending(_, _) => SendKeeps(c, part0, s);
    case Discarding => DiscardKeeps(c, part0, s);
    case Offset =>
      ApplyKeeps(c, part0, s, InProgress(|s.file|, Expected(c)), Polling);
      MovingOnKeeps(c, part0, s, Failing(StreamError));
    case Wrote =>
      var next := if |s.file| >= Expected(c) then Finishing else Polling;
      ApplyKeeps(c, part0, s, InProgress(|s.file|, Expected(c)), next);
      MovingOnKeeps(c, part0, s, next);
    case Failing(reason) => ApplyKeeps(c, part0, s, Failed, Gone(reason));
    case Starting =>
      MovingOnKeeps(c, part0, s, Worker(c, s, io, report).pc);
    case Polling =>
      MovingOnKeeps(c, part0, s, Worker(c, s, io, report).pc);
    case FinishWaiting =>
      MovingOnKeeps(c, part0, s, Worker(c, s, io, report).pc);
    case _ =>
  }

  lemma WorkerKeepsFiles(c: Context, part0: Option<Bytes>, s: State, io: Io, report: bool)
    requires Inv(c, part0, s)
    ensures Contents(c, part0, Worker(c, s, io, report)) && Files(c, part0, Worker(c, s, io, report))
  {
    ReportOnlyInWrote(c, s, io, report);
    hide Inv, Contents, Files, Worker;
    if s.pc.Reading? {
      ReadKeeps(c, part0, s, io);
    } else if s.pc.Opening? {
      OpenKeeps(c, part0, s, io);
    } else if s.pc.Finishing? {
      FinishKeeps(c, part0, s, io);
    } else {
      OtherKeeps(c, part0, s, io, report);
    }
  }

  lemma ReportOnlyInWrote(c: Context, s: State, io: Io, report: bool)
    ensures !s.pc.Wrote? ==> Worker(c, s, io, report) == Worker(c, s, io, false)
    ensures s.pc.Reading? ==> Worker(c, s, io, report) == Read(c, s, io)
  {
    hide Read;
  }

  lemma UserKeeps(c: Context, part0: Option<Bytes>, s: State, e: Event)
    requires Inv(c, part0, s) && !e.Work?
    ensures Inv(c, part0, Step(c, s, e))
  {
    match e
    case Cancel => ToldMore(s.sent, Cancelled);
    case Erase =>
    case Pause =>
      if s.status.InProgress? {
        ToldMore(s.sent, Paused(s.status.bytes, s.status.total));
      }
    case Resume =>
      if s.status.Paused? {
        ToldMore(s.sent, InProgress(s.status.bytes, s.status.total));
      }
    case Unlist =>
  }

  /** Every interleaving of the worker with cancel, pause, resume and the row's removal keeps the invariant. */
  lemma {:induction false} EveryRunKeeps(c: Context, part0: Option<Bytes>, events: seq<Event>)
    ensures Inv(c, part0, Run(c, part0, events))
  {
    if events != [] {
      var n := |events| - 1;
      EveryRunKeeps(c, part0, events[..n]);
      var s := Run(c, part0, events[..n]);
      match events[n] {
        case Work(io, report) =>
          WorkerKeepsPc(c, part0, s, io, report);
          WorkerKeepsFiles(c, part0, s, io, report);
        case _ => UserKeeps(c, part0, s, events[n]);
      }
    }
  }
}
