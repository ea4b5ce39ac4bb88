/** Strings as the wire carries them: UTF-8 (RFC 3629), read strictly. */
module Utf8 {
  import opened Wrappers
  import opened Bits

  predicate Trail(b: byte) {
    128 <= b < 192
  }

  /** Section 3 of RFC 3629: one to four bytes. */
  function EncodeChar(c: char): (r: seq<byte>)
    ensures 1 <= |r| <= 4
  {
    var v := c as int;
    if v < 0x80 then [v]
    else if v < 0x800 then [0xC0 + v / 64, 0x80 + v % 64]
    else if v < 0x10000 then [0xE0 + v / 64 / 64, 0x80 + v / 64 % 64, 0x80 + v % 64]
    else [0xF0 + v / 64 / 64 / 64, 0x80 + v / 64 / 64 % 64, 0x80 + v / 64 % 64, 0x80 + v % 64]
  }

  function Encode(s: string): seq<byte> {
    if s == [] then [] else EncodeChar(s[0]) + Encode(s[1..])
  }

  /** The value of the sequence at the front of `b`, and its length: no overlong forms, no surrogates. */
  function Front(b: seq<byte>): (r: Option<(int, nat)>)
    ensures r.Some? ==> 1 <= r.value.1 <= |b|
    ensures r.Some? ==> 0 <= r.value.0 < 0xD800 || 0xE000 <= r.value.0 < 0x110000
  {
    if b == [] then None
    else
      var lead: int := b[0];
      if lead < 0x80 then Some((lead, 1))
      else if 0xC2 <= lead < 0xE0 && |b| >= 2 && Trail(b[1]) then
        Some(((lead - 0xC0) * 64 + Low(b[1]), 2))
      else if 0xE0 <= lead < 0xF0 && |b| >= 3 && Trail(b[1]) && Trail(b[2]) then
        var v := ((lead - 0xE0) * 64 + Low(b[1])) * 64 + Low(b[2]);
        if v < 0x800 || 0xD800 <= v < 0xE000 then None else Some((v, 3))
      else if 0xF0 <= lead < 0xF5 && |b| >= 4 && Trail(b[1]) && Trail(b[2]) && Trail(b[3]) then
        var v := (((lead - 0xF0) * 64 + Low(b[1])) * 64 + Low(b[2])) * 64 + Low(b[3]);
        if v < 0x10000 || v >= 0x110000 then None else Some((v, 4))
      else None
  }

  function Low(b: byte): int {
    b - 0x80
  }

  function Decode(b: seq<byte>): Option<string>
    decreases |b|
  {
    if b == [] then Some("")
    else
      var front := Front(b);
      if front.None? then None
      else
        var rest := Decode(b[front.value.1..]);
        if rest.None? then None else Some([front.value.0 as char] + rest.value)
  }

  lemma FrontOfChar(c: char, rest: seq<byte>)
    ensures Front(EncodeChar(c) + rest) == Some((c as int, |EncodeChar(c)|))
  {
    var v := c as int;
    var e := EncodeChar(c);
    var b := e + rest;
    assert b[0] == e[0];
    assert |e| >= 2 ==> b[1] == e[1];
    assert |e| >= 3 ==> b[2] == e[2];
    assert |e| >= 4 ==> b[3] == e[3];
    Split(v);
  }

  /** What is written is read back. */
  lemma {:induction false} DecodeEncode(s: string)
    ensures Decode(Encode(s)) == Some(s)
  {
    hide EncodeChar, Front;
    if s != [] {
      FrontOfChar(s[0], Encode(s[1..]));
      DecodeEncode(s[1..]);
      assert Encode(s)[|EncodeChar(s[0])|..] == Encode(s[1..]);
      assert [s[0]] + s[1..] == s;
    }
  }

  lemma CharOfFront(b: seq<byte>)
    requires Front(b).Some?
    ensures var (v, n) := Front(b).value; b[..n] == EncodeChar(v as char)
  {
    var n := Front(b).value.1;
    if n <= 2 {
      CharOfTwo(b);
    } else if n == 3 {
      CharOfThree(b);
    } else {
      CharOfFour(b);
    }
    hide EncodeChar;
  }

  lemma CharOfTwo(b: seq<byte>)
    requires Front(b).Some? && Front(b).value.1 <= 2
    ensures b[..Front(b).value.1] == EncodeChar(Front(b).value.0 as char)
  {
    if Front(b).value.1 == 2 {
      Digits(b[0] as int - 0xC0, Low(b[1]));
    }
  }

  lemma CharOfThree(b: seq<byte>)
    requires Front(b).Some? && Front(b).value.1 == 3
    ensures b[..3] == EncodeChar(Front(b).value.0 as char)
  {
    var lead: int := b[0];
    Digits((lead - 0xE0) * 64 + Low(b[1]), Low(b[2]));
    Digits(lead - 0xE0, Low(b[1]));
  }

  lemma CharOfFour(b: seq<byte>)
    requires Front(b).Some? && Front(b).value.1 == 4
    ensures b[..4] == EncodeChar(Front(b).value.0 as char)
  {
    var lead: int := b[0];
    Digits(((lead - 0xF0) * 64 + Low(b[1])) * 64 + Low(b[2]), Low(b[3]));
    Digits((lead - 0xF0) * 64 + Low(b[1]), Low(b[2]));
    Digits(lead - 0xF0, Low(b[1]));
  }

  lemma Digits(high: nat, low: nat)
    requires low < 64
    ensures (high * 64 + low) / 64 == high && (high * 64 + low) % 64 == low
  {
  }

  lemma Split(v: nat)
    ensures v == v / 64 * 64 + v % 64
    ensures v / 64 == v / 64 / 64 * 64 + v / 64 % 64
    ensures v / 64 / 64 == v / 64 / 64 / 64 * 64 + v / 64 / 64 % 64
  {
  }

  /** Reading is strict: bytes decode to a string exactly when they are its encoding. */
  lemma {:induction false} DecodesExactly(b: seq<byte>, s: string)
    ensures Decode(b) == Some(s) <==> b == Encode(s)
    decreases |b|
  {
    DecodeEncode(s);
    if Decode(b) == Some(s) && b != [] {
      var n := Front(b).value.1;
      CharOfFront(b);
      DecodesExactly(b[n..], s[1..]);
      assert b == b[..n] + b[n..];
      hide EncodeChar, Front;
    }
  }

  /** What the reader makes of bytes that are not UTF-8: one character a byte. */
  function Latin(b: seq<byte>): (s: string)
    ensures |s| == |b|
  {
    if b == [] then [] else [b[0] as char] + Latin(b[1..])
  }

  function Text(b: seq<byte>): string {
    var s := Decode(b);
    if s.Some? then s.value else Latin(b)
  }

  lemma TextOfString(s: string)
    ensures Text(Encode(s)) == s
    ensures Encode(s) == [] <==> s == ""
  {
    DecodeEncode(s);
    hide EncodeChar;
  }
}
