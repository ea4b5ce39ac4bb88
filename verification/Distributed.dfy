/**
 Frames of the distributed network: their layout, the builders, the parser, and
 what the parser makes of what the builders write.
 */
module Distributed {
  import opened Wrappers
  import opened Bits
  import opened Utf8
  import opened Messages

  const SEARCH_IDENTIFIER: nat := 49
  const ENVELOPE: byte := 93

  datatype Distributed =
    | Search(username: string, token: nat, query: string)
    | BranchLevel(level: int)
    | BranchRoot(root: string)

  /** `as u32` and `as i32`: two's complement. */
  function AsUnsigned(level: int): nat
    requires -0x8000_0000 <= level < 0x8000_0000
  {
    if level < 0 then level + TWO32 else level
  }

  function AsSigned(v: nat): int
    requires v < TWO32
  {
    if v < 0x8000_0000 then v else v - TWO32
  }

  /** The field widths of the source's types, and a frame its length field can describe. */
  predicate Fits(m: Distributed) {
    match m
    case Search(_, token, _) => token < TWO32 && |Body(m)| < TWO32
    case BranchLevel(level) => -0x8000_0000 <= level < 0x8000_0000
    case BranchRoot(_) => |Body(m)| < TWO32
  }

  /** A message a reader takes: none of its strings is empty. */
  predicate Whole(m: Distributed) {
    match m
    case Search(username, _, query) => username != "" && query != ""
    case BranchLevel(_) => true
    case BranchRoot(root) => root != ""
  }

  /** The documented layout of a message, after the frame's length. */
  function Body(m: Distributed): seq<byte> {
    match m
    case Search(username, token, query) =>
      [3] + Le32(SEARCH_IDENTIFIER) + PutString(username) + Le32(token) + PutString(query)
    case BranchLevel(level) =>
      [4] + Le32(if -0x8000_0000 <= level < 0x8000_0000 then AsUnsigned(level) else 0)
    case BranchRoot(root) => [5] + PutString(root)
  }

  // ---- What a reader makes of a frame ----

  /** What `rest` means under `code`; an envelope's code means nothing here. */
  function ParseBody(code: byte, rest: seq<byte>): Option<Distributed> {
    if code == 3 then
      var (identifier, r1) := TakeInt32(rest);
      if |rest| < 4 || identifier != SEARCH_IDENTIFIER then None
      else
        var (username, r2) := TakeString(r1);
        if |r2| < 4 then None
        else
          var (token, r3) := TakeInt32(r2);
          var (query, _) := TakeString(r3);
          if username == "" || query == "" then None else Some(Search(username, token, query))
    else if code == 4 then
      if |rest| < 4 then None else Some(BranchLevel(AsSigned(FromLe32(rest))))
    else if code == 5 then
      var root := TakeString(rest).0;
      if root == "" then None else Some(BranchRoot(root))
    else None
  }

  function ParseAt(code: byte, rest: seq<byte>): Option<Distributed> {
    if code == ENVELOPE then ParseBody(TakeInt8(rest).0, TakeInt8(rest).1) else ParseBody(code, rest)
  }

  function Parse(frame: seq<byte>): Option<Distributed> {
    if |frame| < 5 then None else ParseAt(frame[4], frame[5..])
  }

  // ---- The code ----

  method Build(m: Distributed) returns (message: Message)
    requires Fits(m)
    ensures fresh(message) && message.data == Body(m) && message.pointer == 0
  {
    hide Le32, PutString;
    message := new Message();
    match m
    case Search(username, token, query) =>
      message.WriteInt8(3);
      message.WriteInt32(SEARCH_IDENTIFIER);
      message.WriteString(username);
      message.WriteInt32(token);
      message.WriteString(query);
    case BranchLevel(level) =>
      message.WriteInt8(4);
      message.WriteInt32(AsUnsigned(level));
    case BranchRoot(root) =>
      message.WriteInt8(5);
      message.WriteString(root);
  }

  method ParseMessage(message: Message) returns (r: Option<Distributed>)
    modifies message`pointer
    ensures r == Parse(message.data)
  {
    if |message.data| < 5 {
      return None;
    }
    message.pointer := 5;
    var code := message.GetInitCode();
    r := ParseMessageAt(message, code);
  }

  /** Opens at most one envelope, then reads with the message's own pointer. */
  method ParseMessageAt(message: Message, code: byte) returns (r: Option<Distributed>)
    modifies message`pointer
    ensures r == ParseAt(code, old(message.Rest()))
  {
    hide FromLe32, TakeString, TakeInt32, Text;
    ghost var rest := message.Rest();
    var inner := code;
    if code == ENVELOPE {
      inner := message.ReadInt8();
    }
    if inner == 3 {
      var left := message.Remaining();
      if left < 4 {
        return None;
      }
      var identifier := message.ReadInt32();
      if identifier != SEARCH_IDENTIFIER {
        return None;
      }
      var username := message.ReadString();
      left := message.Remaining();
      if left < 4 {
        return None;
      }
      var token := message.ReadInt32();
      var query := message.ReadString();
      return if username == "" || query == "" then None else Some(Search(username, token, query));
    } else if inner == 4 {
      var left := message.Remaining();
      if left < 4 {
        return None;
      }
      FourBytes(message.Rest());
      var level := message.ReadInt32();
      return Some(BranchLevel(AsSigned(level)));
    } else if inner == 5 {
      var root := message.ReadString();
      return if root == "" then None else Some(BranchRoot(root));
    }
    r := None;
  }

  lemma FourBytes(rest: seq<byte>)
    requires |rest| >= 4
    ensures TakeInt32(rest).0 == FromLe32(rest)
  {
  }

  // ---- Round trips ----

  lemma SearchLayout(username: string, token: nat, query: string)
    ensures Body(Search(username, token, query))[1..]
            == Le32(SEARCH_IDENTIFIER) + (PutString(username) + (Le32(token) + PutString(query)))
    ensures |Body(Search(username, token, query))| == 17 + |Encode(username)| + |Encode(query)|
  {
    hide Encode;
  }

  lemma SearchReads(username: string, token: nat, query: string)
    requires Fits(Search(username, token, query))
    ensures var m := Search(username, token, query);
            ParseBody(3, Body(m)[1..]) == if Whole(m) then Some(m) else None
  {
    hide Le32, FromLe32, TakeString, TakeInt32, PutString, Encode, Body;
    var q := PutString(query);
    var r2 := Le32(token) + q;
    SearchLayout(username, token, query);
    TakeInt32OfLe32(SEARCH_IDENTIFIER, PutString(username) + r2);
    TakeStringOfPutString(username, r2);
    TakeInt32OfLe32(token, q);
    TakeStringOfPutString(query, []);
    assert q + [] == q;
  }

  lemma LevelReads(level: int)
    requires Fits(BranchLevel(level))
    ensures ParseBody(4, Body(BranchLevel(level))[1..]) == Some(BranchLevel(level))
  {
    var v := AsUnsigned(level);
    assert Body(BranchLevel(level))[1..] == Le32(v) + [];
    FromLe32OfLe32(v, []);
    hide Le32, FromLe32;
  }

  lemma RootReads(root: string)
    requires Fits(BranchRoot(root))
    ensures ParseBody(5, Body(BranchRoot(root))[1..]) == if root == "" then None else Some(BranchRoot(root))
  {
    assert Body(BranchRoot(root))[1..] == PutString(root) + [];
    TakeStringOfPutString(root, []);
    hide Le32, FromLe32, TakeString, Encode;
  }

  lemma BodyReads(m: Distributed)
    requires Fits(m)
    ensures |Body(m)| > 0
    ensures ParseBody(Body(m)[0], Body(m)[1..]) == if Whole(m) then Some(m) else None
    ensures Body(m)[0] != ENVELOPE
  {
    match m
    case Search(username, token, query) => SearchReads(username, token, query);
    case BranchLevel(level) => LevelReads(level);
    case BranchRoot(root) => RootReads(root);
    hide ParseBody, Le32, PutString;
  }

  /** A message is read back from its frame exactly when none of its strings is empty. */
  lemma ReadsBack(m: Distributed)
    requires Fits(m)
    ensures Parse(Frame(Body(m))) == if Whole(m) then Some(m) else None
  {
    BodyReads(m);
    assert Frame(Body(m))[4] == Body(m)[0];
    assert Frame(Body(m))[5..] == Body(m)[1..];
    hide Body, Le32, ParseBody;
  }

  /** An envelope is read as what it wraps, unless that is an envelope again. */
  lemma EnvelopeOpensOnce(body: seq<byte>)
    ensures Parse(Frame([ENVELOPE] + body)) ==
            if body != [] && body[0] == ENVELOPE then None else Parse(Frame(body))
  {
    var f := Frame([ENVELOPE] + body);
    assert f[4] == ENVELOPE && f[5..] == body;
    if body != [] {
      assert Frame(body)[4] == body[0] && Frame(body)[5..] == body[1..];
    }
    hide Le32, TakeString, TakeInt32, FromLe32;
  }
}
