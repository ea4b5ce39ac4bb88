/**
 Messages: a length-prefixed frame and the fields written into it and read out of
 it. A built message holds only its body, a received one its whole frame.
 */
module Messages {
  import opened Bits
  import opened Utf8

  const TWO32: nat := 0x1_0000_0000

  /** The four low bytes of `n`, least first: what `n as u32` writes. */
  function Le32(n: nat): (r: seq<byte>)
    ensures |r| == 4
  {
    [n % 256, n / 256 % 256, n / 256 / 256 % 256, n / 256 / 256 / 256 % 256]
  }

  function FromLe32(b: seq<byte>): (n: nat)
    requires |b| >= 4
    ensures n < TWO32
  {
    b[0] as int + 256 * (b[1] as int + 256 * (b[2] as int + 256 * (b[3] as int)))
  }

  lemma Digits(n: nat)
    requires n < TWO32
    ensures n / 256 / 256 / 256 < 256
    ensures n == n % 256 + 256 * (n / 256 % 256 + 256 * (n / 256 / 256 % 256 + 256 * (n / 256 / 256 / 256)))
  {
  }

  lemma FromLe32OfLe32(n: nat, rest: seq<byte>)
    requires n < TWO32
    ensures FromLe32(Le32(n) + rest) == n
    ensures (Le32(n) + rest)[4..] == rest
  {
    Digits(n);
    var b := Le32(n) + rest;
    assert b[0] == Le32(n)[0] && b[1] == Le32(n)[1] && b[2] == Le32(n)[2] && b[3] == Le32(n)[3];
  }

  // ---- Reading: a value, and what is left of the message ----

  function TakeInt8(rest: seq<byte>): (byte, seq<byte>) {
    if rest == [] then (0, rest) else (rest[0], rest[1..])
  }

  function TakeInt32(rest: seq<byte>): (nat, seq<byte>) {
    if |rest| < 4 then (0, rest) else (FromLe32(rest), rest[4..])
  }

  /** A length that reaches past the end gives an empty string and consumes the rest. */
  function TakeString(rest: seq<byte>): (string, seq<byte>) {
    if |rest| < 4 then ("", [])
    else
      var size := FromLe32(rest);
      if 4 + size > |rest| then ("", []) else (Text(rest[4..4 + size]), rest[4 + size..])
  }

  /** A string as `write_string` puts it: its length in bytes, then the bytes. */
  function PutString(s: string): seq<byte> {
    Le32(|Encode(s)|) + Encode(s)
  }

  lemma TakeInt32OfLe32(n: nat, rest: seq<byte>)
    requires n < TWO32
    ensures TakeInt32(Le32(n) + rest) == (n, rest)
  {
    FromLe32OfLe32(n, rest);
    hide Le32, FromLe32;
  }

  /** A string no longer than the length field can say is read back. */
  lemma TakeStringOfPutString(s: string, rest: seq<byte>)
    requires |Encode(s)| < TWO32
    ensures TakeString(PutString(s) + rest) == (s, rest)
  {
    var e := Encode(s);
    assert PutString(s) + rest == Le32(|e|) + (e + rest);
    FromLe32OfLe32(|e|, e + rest);
    var b := PutString(s) + rest;
    assert b[4..4 + |e|] == e;
    assert b[4 + |e|..] == rest;
    TextOfString(s);
    hide Le32, FromLe32, Encode, Text;
  }

  function Frame(body: seq<byte>): seq<byte> {
    Le32(|body|) + body
  }

  class Message {
    var data: seq<byte>
    var pointer: nat

    constructor ()
      ensures data == [] && pointer == 0
    {
      data, pointer := [], 0;
    }

    constructor WithData(data: seq<byte>)
      ensures this.data == data && pointer == 0
    {
      this.data, pointer := data, 0;
    }

    /** What has not been read. */
    function Rest(): seq<byte>
      reads this
    {
      if pointer <= |data| then data[pointer..] else []
    }

    method Remaining() returns (n: nat)
      ensures n == |Rest()|
    {
      n := if |data| > pointer then |data| - pointer else 0;
    }

    method GetInitCode() returns (code: byte)
      ensures code == if |data| > 4 then data[4] else 0
    {
      code := if |data| > 4 then data[4] else 0;
    }

    method GetBuffer() returns (b: seq<byte>)
      ensures b == Frame(data)
    {
      b := Le32(|data|);
      b := b + data;
    }

    method ReadInt8() returns (v: byte)
      modifies this`pointer
      ensures (v, Rest()) == TakeInt8(old(Rest()))
    {
      if pointer >= |data| {
        return 0;
      }
      v := data[pointer];
      pointer := pointer + 1;
    }

    method ReadInt32() returns (v: nat)
      modifies this`pointer
      ensures (v, Rest()) == TakeInt32(old(Rest()))
    {
      if pointer + 4 > |data| {
        return 0;
      }
      v := FromLe32([data[pointer], data[pointer + 1], data[pointer + 2], data[pointer + 3]]);
      pointer := pointer + 4;
      hide Le32;
    }

    method ReadString() returns (s: string)
      modifies this`pointer
      ensures (s, Rest()) == TakeString(old(Rest()))
    {
      ghost var rest := Rest();
      assert data[|data|..] == [];
      if pointer + 4 > |data| {
        pointer := |data|;
        return "";
      }
      var size := FromLe32([data[pointer], data[pointer + 1], data[pointer + 2], data[pointer + 3]]);
      assert rest[0] == data[pointer] && rest[1] == data[pointer + 1];
      assert rest[2] == data[pointer + 2] && rest[3] == data[pointer + 3];
      assert size == FromLe32(rest);
      pointer := pointer + 4;
      if pointer + size > |data| {
        pointer := |data|;
        return "";
      }
      var bytes := data[pointer..pointer + size];
      pointer := pointer + size;
      assert bytes == rest[4..4 + size];
      s := Text(bytes);
    }

    method WriteInt8(v: byte)
      modifies this`data
      ensures data == old(data) + [v]
    {
      data := data + [v];
    }

    method WriteInt32(v: nat)
      requires v < TWO32
      modifies this`data
      ensures data == old(data) + Le32(v)
    {
      data := data + Le32(v);
    }

    method WriteString(s: string)
      modifies this`data
      ensures data == old(data) + PutString(s)
    {
      var bytes := Encode(s);
      data := data + Le32(|bytes|);
      data := data + bytes;
    }
  }
}
