/**
 The bytes on the wire in numbers: how numbers, characters, strings and frames are
 laid out, and which frames are read as which message.
 */
module Wire {
  import opened Wrappers
  import opened Bits
  import opened Utf8
  import opened Messages
  import opened Distributed
  import MessageReader

  /** The number that the four bytes at `i` stand for, the least byte first. */
  function Num(b: seq<byte>, i: nat): int
    requires i + 4 <= |b|
  {
    b[i] as int + 256 * b[i + 1] as int + 65_536 * b[i + 2] as int + 16_777_216 * b[i + 3] as int
  }

  /** A number below 2^32 is written as the four bytes that stand for it, and read as what they stand for. */
  lemma NumbersAre(n: nat, b: seq<byte>)
    requires n < 4_294_967_296 && |b| == 4
    ensures Le32(n) == b <==> n == Num(b, 0)
    ensures FromLe32(b) == Num(b, 0)
  {
    Messages.Digits(n);
    assert b == [b[0], b[1], b[2], b[3]];
    FourDigits(b[0] as nat, b[1] as nat, b[2] as nat, b[3] as nat);
  }

  lemma FourDigits(a: nat, b: nat, c: nat, d: nat)
    requires a < 256 && b < 256 && c < 256 && d < 256
    ensures var n := a + 256 * b + 65_536 * c + 16_777_216 * d;
            n % 256 == a && n / 256 % 256 == b && n / 256 / 256 % 256 == c && n / 256 / 256 / 256 % 256 == d
  {
    var n := a + 256 * b + 65_536 * c + 16_777_216 * d;
    assert n == a + 256 * (b + 256 * (c + 256 * d));
    assert n / 256 == b + 256 * (c + 256 * d);
    assert n / 256 / 256 == c + 256 * d;
  }

  /** The six bits of a byte that follows the first. */
  function Six(b: byte): int {
    b - 128
  }

  /** A character takes as few bytes as its value fits into, six bits in each but the first. */
  lemma CharactersAre(c: char)
    ensures var b, v := EncodeChar(c), c as int;
            && (v < 128 ==> |b| == 1 && b[0] as int == v)
            && (128 <= v < 2048 ==> |b| == 2 && 192 <= b[0] < 224 && v == 64 * (b[0] - 192) as int + Six(b[1]))
            && (2048 <= v < 65_536 ==>
                  |b| == 3 && 224 <= b[0] < 240 && v == 4096 * (b[0] - 224) as int + 64 * Six(b[1]) + Six(b[2]))
            && (65_536 <= v ==>
                  |b| == 4 && 240 <= b[0] < 245
                  && v == 262_144 * (b[0] - 240) as int + 4096 * Six(b[1]) + 64 * Six(b[2]) + Six(b[3]))
            && forall i :: 1 <= i < |b| ==> 128 <= b[i] < 192
  {
    var v := c as int;
    Utf8.Split(v);
  }

  /** UTF-8 is read as the string it encodes; other bytes as one character each, of the byte's value. */
  lemma TextIs(b: seq<byte>)
    ensures forall s :: b == Encode(s) ==> Text(b) == s
    ensures (forall s :: b != Encode(s)) ==>
              |Text(b)| == |b| && forall i :: 0 <= i < |b| ==> Text(b)[i] as int == b[i] as int
  {
    hide Encode, Decode;
    forall s | b == Encode(s)
      ensures Text(b) == s
    {
      DecodeEncode(s);
    }
    if Decode(b).Some? {
      DecodesExactly(b, Decode(b).value);
    }
    LatinIs(b);
    hide Latin;
  }

  lemma {:induction false} LatinIs(b: seq<byte>)
    ensures |Latin(b)| == |b| && forall i :: 0 <= i < |b| ==> Latin(b)[i] as int == b[i] as int
  {
    if b != [] {
      LatinIs(b[1..]);
    }
  }

  // ---- What is read from a frame ----

  /** The string of the length field at `i` reaches no further than the end. */
  predicate StringAt(p: seq<byte>, i: nat) {
    i + 4 <= |p| && i + 4 + Num(p, i) <= |p|
  }

  function TextAt(p: seq<byte>, i: nat): string
    requires StringAt(p, i)
  {
    Text(p[i + 4..i + 4 + Num(p, i)])
  }

  function EndAt(p: seq<byte>, i: nat): nat
    requires StringAt(p, i)
  {
    i + 4 + Num(p, i)
  }

  /** `p`, a code and what follows it, says `m`; anything may stand behind. */
  predicate Says(p: seq<byte>, m: Distributed) {
    |p| >= 1 &&
    match m
    case Search(username, token, query) =>
      && p[0] == 3 && |p| >= 5 && Num(p, 1) == 49
      && StringAt(p, 5) && TextAt(p, 5) == username != ""
      && var t := EndAt(p, 5);
         t + 4 <= |p| && Num(p, t) == token && StringAt(p, t + 4) && TextAt(p, t + 4) == query != ""
    case BranchLevel(level) =>
      && p[0] == 4 && |p| >= 5
      && level == if Num(p, 1) < 2_147_483_648 then Num(p, 1) else Num(p, 1) - 4_294_967_296
    case BranchRoot(root) => p[0] == 5 && StringAt(p, 1) && TextAt(p, 1) == root != ""
  }

  /** A frame's message: after the length, and after one envelope's code if there is one. */
  function Inside(frame: seq<byte>): seq<byte> {
    if |frame| < 5 then [] else if frame[4] == 93 then frame[5..] else frame[4..]
  }

  lemma TakeInt32Is(p: seq<byte>, i: nat)
    requires i <= |p|
    ensures TakeInt32(p[i..]) == if i + 4 <= |p| then (Num(p, i), p[i + 4..]) else (0, p[i..])
  {
  }

  lemma TakeStringIs(p: seq<byte>, i: nat)
    requires i <= |p|
    ensures TakeString(p[i..]) == if StringAt(p, i) then (TextAt(p, i), p[EndAt(p, i)..]) else ("", [])
  {
    hide Text;
    if i + 4 <= |p| {
      assert FromLe32(p[i..]) == Num(p, i);
      hide FromLe32;
      if StringAt(p, i) {
        assert p[i..][4..4 + Num(p, i)] == p[i + 4..i + 4 + Num(p, i)];
        assert p[i..][4 + Num(p, i)..] == p[EndAt(p, i)..];
      }
    }
  }

  lemma SearchRead(p: seq<byte>, m: Distributed)
    requires |p| >= 1 && p[0] == 3
    ensures ParseBody(3, p[1..]) == Some(m) <==> Says(p, m)
  {
    hide TakeInt32, TakeString, FromLe32, TextAt, Num;
    TakeInt32Is(p, 1);
    if |p| >= 5 {
      TakeStringIs(p, 5);
      if StringAt(p, 5) {
        var t := EndAt(p, 5);
        TakeInt32Is(p, t);
        if t + 4 <= |p| {
          TakeStringIs(p, t + 4);
        }
      }
    }
  }

  lemma OtherRead(p: seq<byte>, m: Distributed)
    requires |p| >= 1 && p[0] != 3
    ensures ParseBody(p[0], p[1..]) == Some(m) <==> Says(p, m)
  {
    TakeStringIs(p, 1);
    TakeInt32Is(p, 1);
    hide TakeString, Text;
  }

  /** A frame is read as a message exactly when its bytes say so: in every other case it is nothing. */
  lemma ReadExactlyWhen(frame: seq<byte>, m: Distributed)
    ensures Parse(frame) == Some(m) <==> Says(Inside(frame), m)
  {
    hide ParseBody, Says;
    var p := Inside(frame);
    NothingSaid(m);
    if |p| >= 1 {
      assert |frame| >= 5 && frame[4] != 93 ==> p[0] == frame[4] && p[1..] == frame[5..];
      if p[0] == 3 {
        SearchRead(p, m);
      } else {
        OtherRead(p, m);
      }
    } else {
      EmptyIsNothing();
    }
  }

  lemma NothingSaid(m: Distributed)
    ensures !Says([], m)
  {
  }

  lemma EmptyIsNothing()
    ensures ParseBody(0, []).None?
  {
  }

  // ---- What is built ----

  /** The body built says the message, and has no byte more than that takes. */
  lemma LayoutIs(m: Distributed)
    requires Fits(m) && Whole(m)
    ensures Says(Body(m), m)
    ensures |Body(m)| == match m
                         case Search(username, _, query) => 17 + |Encode(username)| + |Encode(query)|
                         case BranchLevel(_) => 5
                         case BranchRoot(root) => 5 + |Encode(root)|
  {
    ReadsBack(m);
    BodyReads(m);
    ReadExactlyWhen(Frame(Body(m)), m);
    hide Says, Le32, ParseBody, Encode, Parse, Fits, Whole;
    InsideFrame(Body(m));
  }

  lemma InsideFrame(body: seq<byte>)
    requires body != [] && body[0] != 93
    ensures Inside(Frame(body)) == body
  {
    assert Frame(body)[4] == body[0];
  }

  /** A frame is there exactly when its length and that many bytes have come. */
  lemma WholeExactlyWhen(buffer: seq<byte>)
    ensures var r := MessageReader.Extract(buffer);
            && (r.0.Some? <==> |buffer| >= 4 && |buffer| >= 4 + Num(buffer, 0))
            && (r.0.Some? ==> r.0.value == buffer[..4 + Num(buffer, 0)] && r.1 == buffer[4 + Num(buffer, 0)..])
            && (r.0.None? ==> r.1 == buffer)
  {
  }
}
