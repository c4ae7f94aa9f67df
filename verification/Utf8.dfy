/** Strict UTF-8 decoding, as `std::str::from_utf8` accepts it. */
module Utf8 {
  import opened Domain

  type byte = x: int | 0 <= x < 256

  predicate Continuation(b: byte) { 0x80 <= b < 0xC0 }

  /** Scalar values: every code point except the surrogates. */
  predicate Scalar(n: int) { 0 <= n < 0xD800 || 0xE000 <= n < 0x110000 }

  /** A leading digit extended by one six-bit continuation. */
  function Extend(high: int, b: byte): int { 0x40 * high + (b as int - 0x80) }

  /** The code point at the front of the bytes and how many bytes it takes; None where the encoding is not strict. */
  function First(s: seq<byte>): (r: Option<(int, nat)>)
    ensures r.Some? ==> Scalar(r.value.0) && 1 <= r.value.1 <= |s|
  {
    if s == [] then None
    else if s[0] < 0x80 then Some((s[0], 1))
    else if |s| < 2 || !Continuation(s[1]) then None
    else if s[0] < 0xE0 then Checked(Extend(s[0] as int - 0xC0, s[1]), 0x80, 2)
    else if |s| < 3 || !Continuation(s[2]) then None
    else if s[0] < 0xF0 then Checked(Extend(Extend(s[0] as int - 0xE0, s[1]), s[2]), 0x800, 3)
    else if |s| < 4 || !Continuation(s[3]) then None
    else Checked(Extend(Extend(Extend(s[0] as int - 0xF0, s[1]), s[2]), s[3]), 0x10000, 4)
  }

  /** Refuses an overlong form, a surrogate and anything past the last code point. */
  function Checked(n: int, least: nat, size: nat): (r: Option<(int, nat)>)
    ensures r.Some? ==> Scalar(n) && n >= least && r.value == (n, size)
  {
    if n < least || !Scalar(n) then None else Some((n, size))
  }

  function Decode(s: seq<byte>): Option<string> {
    if s == [] then Some("")
    else
      var first := First(s);
      if first.None? then None
      else
        var rest := Decode(s[first.value.1..]);
        if rest.None? then None else Some([first.value.0 as char] + rest.value)
  }

  function Low(n: nat): byte { 0x80 + n % 0x40 }

  function EncodeChar(c: char): seq<byte> {
    var n := c as int;
    var n1 := n / 0x40;
    var n2 := n1 / 0x40;
    if n < 0x80 then [n]
    else if n < 0x800 then [0xC0 + n1, Low(n)]
    else if n < 0x10000 then [0xE0 + n2, Low(n1), Low(n)]
    else [0xF0 + n2 / 0x40, Low(n2), Low(n1), Low(n)]
  }

  function Encode(s: string): seq<byte> {
    if s == [] then [] else EncodeChar(s[0]) + Encode(s[1..])
  }

  lemma FirstOfEncoded(c: char, rest: seq<byte>)
    ensures First(EncodeChar(c) + rest) == Some((c as int, |EncodeChar(c)|))
  {
    hide Extend, Low;
    var n := c as int;
    ExtendLow(n);
    ExtendLow(n / 0x40);
    ExtendLow(n / 0x40 / 0x40);
  }

  lemma ExtendLow(n: nat)
    ensures Extend(n / 0x40, Low(n)) == n && Continuation(Low(n))
  {
  }

  lemma ExtendNegative(high: int, b: byte)
    requires Continuation(b) && high < 0
    ensures Extend(high, b) < 0
  {
  }

  lemma LowExtend(high: nat, b: byte)
    requires Continuation(b)
    ensures Extend(high, b) >= 0 && Extend(high, b) / 0x40 == high && Low(Extend(high, b)) == b
  {
  }

  lemma DecodeStep(c: char, head: seq<byte>, tail: seq<byte>)
    requires First(head + tail) == Some((c as int, |head|)) && head != []
    ensures Decode(head + tail) == if Decode(tail).None? then None else Some([c] + Decode(tail).value)
  {
    hide First;
    assert (head + tail)[|head|..] == tail;
  }

  /** Encoded characters before any bytes decode to themselves before whatever the bytes decode to. */
  lemma {:induction false} DecodePrepends(text: string, rest: seq<byte>)
    ensures Decode(Encode(text) + rest) ==
            if Decode(rest).None? then None else Some(text + Decode(rest).value)
  {
    hide First, EncodeChar, Decode;
    if text == [] {
      assert Encode(text) + rest == rest;
      if Decode(rest).Some? {
        assert text + Decode(rest).value == Decode(rest).value;
      }
    } else {
      var head, tail := EncodeChar(text[0]), Encode(text[1..]) + rest;
      FirstOfEncoded(text[0], tail);
      DecodeStep(text[0], head, tail);
      assert Encode(text) + rest == head + tail;
      DecodePrepends(text[1..], rest);
      if Decode(rest).Some? {
        assert [text[0]] + (text[1..] + Decode(rest).value) == text + Decode(rest).value;
      }
    }
  }

  lemma DecodeEncode(text: string)
    ensures Decode(Encode(text)) == Some(text)
  {
    DecodePrepends(text, []);
    assert Encode(text) + [] == Encode(text);
    assert text + "" == text;
  }

  /** Strictness: bytes that decode are the encoding of what they decode to. */
  lemma {:induction false} EncodeDecode(s: seq<byte>)
    ensures Decode(s).Some? ==> Encode(Decode(s).value) == s
    decreases |s|
  {
    if s != [] && Decode(s).Some? {
      hide First, EncodeChar;
      EncodedFirst(s);
      var first := First(s).value;
      var head, tail := s[..first.1], s[first.1..];
      EncodeDecode(tail);
      assert s == head + tail;
      DecodeStep(first.0 as char, head, tail);
      hide Decode;
      assert Decode(s).value[1..] == Decode(tail).value;
    }
  }

  lemma EncodedFirst(s: seq<byte>)
    requires First(s).Some?
    ensures EncodeChar(First(s).value.0 as char) == s[..First(s).value.1]
  {
    hide Extend, Low;
    if s[0] >= 0xF0 {
      var a := s[0] as int - 0xF0;
      LowExtend(a, s[1]);
      LowExtend(Extend(a, s[1]), s[2]);
      LowExtend(Extend(Extend(a, s[1]), s[2]), s[3]);
    } else if s[0] >= 0xE0 {
      var a := s[0] as int - 0xE0;
      LowExtend(a, s[1]);
      LowExtend(Extend(a, s[1]), s[2]);
    } else if s[0] >= 0xC0 {
      LowExtend(s[0] as int - 0xC0, s[1]);
    } else if s[0] >= 0x80 {
      ExtendNegative(s[0] as int - 0xC0, s[1]);
    }
  }
}
