/**
 Framing over a byte stream that arrives in chunks of any size: the reader keeps
 what has come in and gives out whole frames.
 */
module MessageReader {
  import opened Basics
  import opened Wrappers
  import opened Bits
  import opened Messages
  import opened Distributed

  /** The first frame in `buffer`, length prefix included, and what follows it. */
  function Extract(buffer: seq<byte>): (r: (Option<seq<byte>>, seq<byte>))
    ensures r.0.None? ==> r.1 == buffer
    ensures r.0.Some? ==> |r.0.value| >= 4 && r.0.value + r.1 == buffer
  {
    if |buffer| < 4 then (None, buffer)
    else
      var total := FromLe32(buffer) + 4;
      if |buffer| < total then (None, buffer) else (Some(buffer[..total]), buffer[total..])
  }

  class MessageReader {
    var buffer: seq<byte>

    constructor ()
      ensures buffer == []
    {
      buffer := [];
    }

    /** What one read of the socket brings; nothing at all is the peer hanging up. */
    method ReadFromSocket(chunk: seq<byte>) returns (ok: bool)
      modifies this
      ensures ok <==> chunk != []
      ensures buffer == old(buffer) + chunk
    {
      if chunk == [] {
        return false;
      }
      buffer := buffer + chunk;
      ok := true;
    }

    method ExtractMessage() returns (message: Option<Message>)
      modifies this
      ensures message.Some? <==> Extract(old(buffer)).0.Some?
      ensures message.Some? ==>
                && fresh(message.value)
                && Extract(old(buffer)).0 == Some(message.value.data)
                && message.value.pointer == 0
      ensures buffer == Extract(old(buffer)).1
    {
      var bytesRead := |buffer|;
      if bytesRead < 4 {
        return None;
      }
      var messageSize := FromLe32([buffer[0], buffer[1], buffer[2], buffer[3]]);
      var totalSize := messageSize + 4;
      if bytesRead < totalSize {
        return None;
      }
      var m := new Message.WithData(buffer[..totalSize]);
      buffer := buffer[totalSize..];
      message := Some(m);
    }

    /** Take every frame there is and read it, as the actors do after each read of the socket. */
    method ExtractAndParse() returns (parsed: seq<Option<Distributed>>)
      modifies this
      ensures parsed == ParseAll(Frames(old(buffer)).0)
      ensures buffer == Frames(old(buffer)).1
    {
      hide Extract, Frames, Parse, ParseAll;
      parsed := [];
      ghost var before := buffer;
      ghost var taken: seq<seq<byte>> := [];
      assert taken + Frames(buffer).0 == Frames(buffer).0;
      while true
        invariant parsed == ParseAll(taken)
        invariant Frames(before) == (taken + Frames(buffer).0, Frames(buffer).1)
        decreases |buffer|
      {
        ghost var f := Extract(buffer).0;
        FirstFrame(buffer);
        var next := ExtractMessage();
        if next.None? {
          assert taken + [] == taken;
          return;
        }
        Associative(taken, [f.value], Frames(buffer).0);
        var one := ParseMessage(next.value);
        ParseSnoc(taken, f.value);
        parsed := parsed + [one];
        taken := taken + [f.value];
      }
    }
  }

  function ParseAll(frames: seq<seq<byte>>): (r: seq<Option<Distributed>>)
    ensures |r| == |frames|
  {
    seq(|frames|, i requires 0 <= i < |frames| => Parse(frames[i]))
  }

  lemma ParseSnoc(frames: seq<seq<byte>>, last: seq<byte>)
    ensures ParseAll(frames + [last]) == ParseAll(frames) + [Parse(last)]
  {
    hide Parse;
  }

  /** All the whole frames in `buffer`, and what is left over. */
  function Frames(buffer: seq<byte>): (seq<seq<byte>>, seq<byte>)
    decreases |buffer|
  {
    var (f, rest) := Extract(buffer);
    if f.None? then ([], buffer)
    else
      var more := Frames(rest);
      ([f.value] + more.0, more.1)
  }

  lemma FirstFrame(buffer: seq<byte>)
    ensures Extract(buffer).0.None? ==> Frames(buffer) == ([], buffer)
    ensures Extract(buffer).0.Some? ==>
              |Extract(buffer).1| < |buffer|
              && Frames(buffer) == ([Extract(buffer).0.value] + Frames(Extract(buffer).1).0, Frames(Extract(buffer).1).1)
  {
  }

  function Join(parts: seq<seq<byte>>): seq<byte> {
    if parts == [] then [] else Join(parts[..|parts| - 1]) + parts[|parts| - 1]
  }

  lemma {:induction false} JoinOnto(front: seq<byte>, parts: seq<seq<byte>>)
    ensures Join([front] + parts) == front + Join(parts)
  {
    var n := |parts|;
    if n == 0 {
      assert ([front] + parts)[..0] == [];
      assert Join([]) == [];
    } else {
      JoinOnto(front, parts[..n - 1]);
      assert ([front] + parts)[..n] == [front] + parts[..n - 1];
    }
  }

  // ---- Chunks ----

  /** More bytes behind a whole frame do not change it; behind a short buffer they may complete it. */
  lemma ExtractOfMore(a: seq<byte>, b: seq<byte>)
    requires Extract(a).0.Some?
    ensures Extract(a + b) == (Extract(a).0, Extract(a).1 + b)
  {
    var total := FromLe32(a) + 4;
    assert (a + b)[..total] == a[..total];
    assert (a + b)[total..] == a[total..] + b;
  }

  /** Taking the frames as they come and taking them all at the end is the same. */
  lemma {:induction false} FramesOfMore(a: seq<byte>, b: seq<byte>)
    ensures Frames(a + b) == (Frames(a).0 + Frames(Frames(a).1 + b).0, Frames(Frames(a).1 + b).1)
    decreases |a|
  {
    hide Extract, Frames;
    FirstFrame(a);
    if Extract(a).0.Some? {
      var (f, rest) := Extract(a);
      ExtractOfMore(a, b);
      FirstFrame(a + b);
      FramesOfMore(rest, b);
      Associative([f.value], Frames(rest).0, Frames(Frames(a).1 + b).0);
    } else {
      assert [] + Frames(a + b).0 == Frames(a + b).0;
    }
  }

  /** What is left over holds no whole frame. */
  lemma {:induction false} NoFrameIsLeft(buffer: seq<byte>)
    ensures Extract(Frames(buffer).1).0.None?
    decreases |buffer|
  {
    hide Extract;
    FirstFrame(buffer);
    if Extract(buffer).0.Some? {
      NoFrameIsLeft(Extract(buffer).1);
    }
  }

  // ---- Runs: chunks arrive, and frames are taken, in any order ----

  datatype Op = Arrive(chunk: seq<byte>) | Take

  datatype State = State(emitted: seq<seq<byte>>, buffer: seq<byte>)

  function Step(s: State, op: Op): State {
    match op
    case Arrive(chunk) => s.(buffer := s.buffer + chunk)
    case Take =>
      var (f, rest) := Extract(s.buffer);
      if f.None? then s else State(s.emitted + [f.value], rest)
  }

  function Run(ops: seq<Op>): State {
    if ops == [] then State([], []) else Step(Run(ops[..|ops| - 1]), ops[|ops| - 1])
  }

  function Arrived(ops: seq<Op>): seq<byte> {
    if ops == [] then []
    else Arrived(ops[..|ops| - 1]) + (if ops[|ops| - 1].Arrive? then ops[|ops| - 1].chunk else [])
  }

  /** The bytes are all there, and the frames are those of everything that came. */
  predicate Accounted(s: State, arrived: seq<byte>) {
    && Join(s.emitted) + s.buffer == arrived
    && Frames(arrived) == (s.emitted + Frames(s.buffer).0, Frames(s.buffer).1)
  }

  /** Whatever arrives and whenever frames are taken, nothing is lost, invented or reordered. */
  lemma {:induction false} NothingIsLost(ops: seq<Op>)
    ensures Accounted(Run(ops), Arrived(ops))
  {
    hide Accounted, Extract;
    if ops != [] {
      var n := |ops| - 1;
      NothingIsLost(ops[..n]);
      match ops[n]
      case Arrive(chunk) => ArriveAccounts(Run(ops[..n]), Arrived(ops[..n]), chunk);
      case Take =>
        assert Arrived(ops) == Arrived(ops[..n]);
        TakeAccounts(Run(ops[..n]), Arrived(ops[..n]));
    } else {
      AccountedAtFirst();
    }
  }

  lemma AccountedAtFirst()
    ensures Accounted(State([], []), [])
  {
  }

  lemma ArriveAccounts(s: State, arrived: seq<byte>, chunk: seq<byte>)
    requires Accounted(s, arrived)
    ensures Accounted(s.(buffer := s.buffer + chunk), arrived + chunk)
  {
    hide Extract, Frames, Join;
    Associative(Join(s.emitted), s.buffer, chunk);
    FramesOfMore(arrived, chunk);
    FramesOfMore(s.buffer, chunk);
    Associative(s.emitted, Frames(s.buffer).0, Frames(Frames(s.buffer).1 + chunk).0);
  }

  lemma TakeAccounts(s: State, arrived: seq<byte>)
    requires Accounted(s, arrived)
    ensures Accounted(Step(s, Take), arrived)
  {
    hide Extract, Frames, Join;
    FirstFrame(s.buffer);
    var (f, rest) := Extract(s.buffer);
    if f.Some? {
      JoinSnoc(s.emitted, f.value);
      Associative(Join(s.emitted), f.value, rest);
      Associative(s.emitted, [f.value], Frames(rest).0);
    }
  }

  lemma JoinSnoc(parts: seq<seq<byte>>, last: seq<byte>)
    ensures Join(parts + [last]) == Join(parts) + last
  {
    assert (parts + [last])[..|parts|] == parts;
  }

  // ---- Messages over the stream ----

  function Sent(ms: seq<Distributed>): (parts: seq<seq<byte>>)
    ensures |parts| == |ms|
  {
    seq(|ms|, i requires 0 <= i < |ms| => Frame(Body(ms[i])))
  }

  predicate AllFit(ms: seq<Distributed>) {
    forall i :: 0 <= i < |ms| ==> Fits(ms[i])
  }

  /** A frame at the front of a stream is taken off whole. */
  lemma FrameComesOff(body: seq<byte>, rest: seq<byte>)
    requires |body| < TWO32
    ensures Extract(Frame(body) + rest) == (Some(Frame(body)), rest)
  {
    assert Frame(body) + rest == Le32(|body|) + (body + rest);
    FromLe32OfLe32(|body|, body + rest);
    var b := Frame(body) + rest;
    assert b[..|body| + 4] == Frame(body);
    assert b[|body| + 4..] == rest;
    hide Le32, FromLe32;
  }

  /** The stream of the messages' frames splits into just those frames. */
  lemma {:induction false} StreamSplits(ms: seq<Distributed>)
    requires AllFit(ms)
    ensures Frames(Join(Sent(ms))) == (Sent(ms), [])
  {
    hide Extract, Body, Frame, Fits;
    if ms == [] {
      assert Sent(ms) == [] && Join([]) == [];
    } else {
      var parts := Sent(ms[1..]);
      var first := Frame(Body(ms[0]));
      assert Sent(ms) == [first] + parts;
      JoinOnto(first, parts);
      SizeFits(ms[0]);
      FrameComesOff(Body(ms[0]), Join(parts));
      FirstFrame(first + Join(parts));
      StreamSplits(ms[1..]);
    }
  }

  lemma SizeFits(m: Distributed)
    requires Fits(m)
    ensures |Body(m)| < TWO32
  {
    hide PutString;
  }

  /** What a reader is to make of a list of messages: those with an empty string are dropped as it goes. */
  function Expected(ms: seq<Distributed>): (r: seq<Option<Distributed>>)
    ensures |r| == |ms|
  {
    seq(|ms|, i requires 0 <= i < |ms| => if Whole(ms[i]) then Some(ms[i]) else None)
  }

  lemma SentParses(ms: seq<Distributed>)
    requires AllFit(ms)
    ensures ParseAll(Sent(ms)) == Expected(ms)
  {
    hide Parse, Frame, Body, Whole, Fits;
    forall i | 0 <= i < |ms|
      ensures Parse(Sent(ms)[i]) == Expected(ms)[i]
    {
      ReadsBack(ms[i]);
    }
  }

  /**
   The messages a peer sends, however their bytes are cut and whenever frames are
   taken: what has been read so far is the front of what was sent, in order, and
   once everything has come and no frame is left it is all of it.
   */
  lemma StreamArrives(ms: seq<Distributed>, ops: seq<Op>)
    requires AllFit(ms) && Arrived(ops) <= Join(Sent(ms))
    ensures var got := ParseAll(Run(ops).emitted);
            && got <= Expected(ms)
            && (Arrived(ops) == Join(Sent(ms)) && Extract(Run(ops).buffer).0.None? ==>
                  got == Expected(ms) && Run(ops).buffer == [])
  {
    hide Extract, Frames, Parse, Join, Sent, Expected, Run, Arrived, AllFit;
    var s := Run(ops);
    var all := Join(Sent(ms));
    var later := all[|Arrived(ops)|..];
    assert all == Arrived(ops) + later;
    NothingIsLost(ops);
    StreamSplits(ms);
    SentParses(ms);
    FramesOfMore(Arrived(ops), later);
    FrontParses(s.emitted, Sent(ms));
    FirstFrame(s.buffer);
    if later == [] {
      assert all == Arrived(ops);
      assert s.emitted + [] == s.emitted;
    }
  }

  lemma FrontParses(front: seq<seq<byte>>, all: seq<seq<byte>>)
    requires front <= all
    ensures ParseAll(front) <= ParseAll(all)
  {
    hide Parse;
  }
}
