/** The chunked-body decoder of the container clients' HTTP responses. */
module Chunks {
  import opened Domain
  import opened Utf8

  datatype ParseError = TruncatedHeader | NonUtf8Size | InvalidSize | TruncatedData

  datatype Outcome<T> = Ok(value: T) | Err(error: ParseError)

  const CR: byte := 13
  const LF: byte := 10
  const CRLF: seq<byte> := [CR, LF]
  const SIZE_LIMIT: nat := 0x1_0000_0000_0000_0000

  // ---------------------------------------------------------------- the decoder

  predicate StartsWithCrlf(s: seq<byte>) {
    |s| >= 2 && s[0] == CR && s[1] == LF
  }

  /** The position of the first CRLF. */
  function FindCrlf(s: seq<byte>): (r: Option<nat>)
    ensures r.Some? ==> r.value + 2 <= |s|
  {
    if |s| < 2 then None
    else if StartsWithCrlf(s) then Some(0)
    else
      var later := FindCrlf(s[1..]);
      if later.None? then None else Some(later.value + 1)
  }

  /** The Unicode White_Space property, which trimming goes by. */
  predicate IsSpace(c: char) {
    var n := c as int;
    || 9 <= n <= 13 || n == 0x20 || n == 0x85 || n == 0xA0 || n == 0x1680 || 0x2000 <= n <= 0x200A
    || n == 0x2028 || n == 0x2029 || n == 0x202F || n == 0x205F || n == 0x3000
  }

  function TrimStart(s: string): string {
    if s != [] && IsSpace(s[0]) then TrimStart(s[1..]) else s
  }

  function TrimEnd(s: string): string {
    if s != [] && IsSpace(s[|s| - 1]) then TrimEnd(s[..|s| - 1]) else s
  }

  function BeforeSemicolon(s: string): string {
    if s == [] || s[0] == ';' then "" else [s[0]] + BeforeSemicolon(s[1..])
  }

  predicate IsHex(c: char) { '0' <= c <= '9' || 'a' <= c <= 'f' || 'A' <= c <= 'F' }

  function HexDigit(c: char): nat
    requires IsHex(c)
  {
    if c <= '9' then (c - '0') as nat else if c <= 'F' then (c - 'A') as nat + 10 else (c - 'a') as nat + 10
  }

  predicate AllHex(s: string) {
    s != [] && forall k :: 0 <= k < |s| ==> IsHex(s[k])
  }

  function HexValue(s: string): nat
    requires AllHex(s)
  {
    (if |s| == 1 then 0 else 16 * HexValue(s[..|s| - 1])) + HexDigit(s[|s| - 1])
  }

  /** `usize::from_str_radix(token, 16)` on 64-bit targets: one leading plus sign is allowed. */
  function ParseHex(token: string): Option<nat> {
    var digits := if |token| >= 2 && token[0] == '+' then token[1..] else token;
    if AllHex(digits) && HexValue(digits) < SIZE_LIMIT then Some(HexValue(digits)) else None
  }

  function SizeOf(line: seq<byte>): Outcome<nat> {
    var text := Utf8.Decode(line);
    if text.None? then Err(NonUtf8Size)
    else
      var size := ParseHex(TrimEnd(TrimStart(BeforeSemicolon(text.value))));
      if size.None? then Err(InvalidSize) else Ok(size.value)
  }

  function SkipCrlf(s: seq<byte>): (r: seq<byte>)
    ensures |r| <= |s|
  {
    if StartsWithCrlf(s) then s[2..] else s
  }

  function Decode(input: seq<byte>): Outcome<seq<byte>>
    decreases |input|
  {
    var lineEnd := FindCrlf(input);
    if lineEnd.None? then Err(TruncatedHeader)
    else
      var size, after := SizeOf(input[..lineEnd.value]), input[lineEnd.value + 2..];
      if size.Err? then Err(size.error)
      else if size.value == 0 then Ok([])
      else if |after| < size.value then Err(TruncatedData)
      else Prepend(after[..size.value], Decode(SkipCrlf(after[size.value..])))
  }

  function Prepend(data: seq<byte>, rest: Outcome<seq<byte>>): Outcome<seq<byte>> {
    if rest.Ok? then Ok(data + rest.value) else rest
  }

  method DecodeChunks(body: seq<byte>) returns (r: Outcome<seq<byte>>)
    ensures r == Decode(body)
  {
    hide Decode, SizeOf, FindCrlf;
    var input, out := body, [];
    PrependNothing(Decode(body));
    while true
      invariant Decode(body) == Prepend(out, Decode(input))
      decreases |input|
    {
      DecodeUnfolds(input);
      var lineEnd := FindCrlf(input);
      if lineEnd.None? {
        return Err(TruncatedHeader);
      }
      var size := SizeOf(input[..lineEnd.value]);
      if size.Err? {
        return Err(size.error);
      }
      input := input[lineEnd.value + 2..];
      if size.value == 0 {
        break;
      }
      if |input| < size.value {
        return Err(TruncatedData);
      }
      PrependTwice(out, input[..size.value], Decode(SkipCrlf(input[size.value..])));
      out := out + input[..size.value];
      input := input[size.value..];
      if StartsWithCrlf(input) {
        input := input[2..];
      }
    }
    assert out + [] == out;
    return Ok(out);
  }

  lemma PrependNothing(rest: Outcome<seq<byte>>)
    ensures Prepend([], rest) == rest
  {
    if rest.Ok? {
      assert [] + rest.value == rest.value;
    }
  }

  lemma DecodeUnfolds(input: seq<byte>)
    ensures FindCrlf(input).None? ==> Decode(input) == Err(TruncatedHeader)
    ensures FindCrlf(input).Some? ==>
              var e := FindCrlf(input).value;
              var size, after := SizeOf(input[..e]), input[e + 2..];
              Decode(input) ==
              if size.Err? then Err(size.error)
              else if size.value == 0 then Ok([])
              else if |after| < size.value then Err(TruncatedData)
              else Prepend(after[..size.value], Decode(SkipCrlf(after[size.value..])))
  {
    hide SizeOf, FindCrlf;
  }

  lemma PrependTwice(a: seq<byte>, b: seq<byte>, rest: Outcome<seq<byte>>)
    ensures Prepend(a, Prepend(b, rest)) == Prepend(a + b, rest)
  {
    if rest.Ok? {
      assert a + (b + rest.value) == a + b + rest.value;
    }
  }

  // ---------------------------------------------------------------- framing

  /** One data chunk: its header line, its data, and whether a CRLF closes it. */
  datatype Chunk = Chunk(line: seq<byte>, data: seq<byte>, closed: bool)

  predicate NoCrlf(line: seq<byte>) {
    forall k :: 0 <= k <= |line| ==> !StartsWithCrlf(line[k..])
  }

  predicate Header(line: seq<byte>, size: nat) {
    NoCrlf(line) && SizeOf(line) == Ok(size)
  }

  predicate Framed(chunks: seq<Chunk>) {
    forall c <- chunks :: c.data != [] && Header(c.line, |c.data|)
  }

  function Frame(c: Chunk): seq<byte> {
    c.line + CRLF + c.data + Closing(c)
  }

  /** The chunks, the zero chunk's line and its CRLF; trailers may follow. */
  function Encode(chunks: seq<Chunk>, last: seq<byte>): seq<byte> {
    if chunks == [] then last + CRLF else Frame(chunks[0]) + Encode(chunks[1..], last)
  }

  function Content(chunks: seq<Chunk>): seq<byte> {
    if chunks == [] then [] else chunks[0].data + Content(chunks[1..])
  }

  lemma {:induction false} FindAfterLine(line: seq<byte>, rest: seq<byte>)
    requires NoCrlf(line)
    ensures FindCrlf(line + CRLF + rest) == Some(|line|)
  {
    var s := line + CRLF + rest;
    if line != [] {
      assert !StartsWithCrlf(line[0..]);
      assert forall k :: 0 <= k <= |line[1..]| ==> line[1..][k..] == line[k + 1..];
      FindAfterLine(line[1..], rest);
      assert s[1..] == line[1..] + CRLF + rest;
    }
  }

  lemma {:induction false} FindNothing(s: seq<byte>)
    requires NoCrlf(s)
    ensures FindCrlf(s).None?
  {
    if |s| >= 2 {
      assert !StartsWithCrlf(s[0..]);
      assert forall k :: 0 <= k <= |s[1..]| ==> s[1..][k..] == s[k + 1..];
      FindNothing(s[1..]);
    }
  }

  lemma {:induction false} FoundLine(s: seq<byte>)
    requires FindCrlf(s).Some?
    ensures var e := FindCrlf(s).value; s == s[..e] + CRLF + s[e + 2..] && NoCrlf(s[..e])
  {
    var e := FindCrlf(s).value;
    if e > 0 {
      FoundLine(s[1..]);
      var line, rest := s[..e], s[1..];
      assert s == [s[0]] + rest && rest[..e - 1] == line[1..] && rest[e - 1 + 2..] == s[e + 2..];
      forall k | 0 <= k <= e ensures !StartsWithCrlf(line[k..]) {
        if k > 0 {
          assert line[k..] == line[1..][k - 1..];
        }
      }
    }
  }

  lemma EmptyLineNamesNothing()
    ensures SizeOf([]) == Err(InvalidSize)
  {
  }

  /** Anything but an empty line before its CRLF. */
  predicate Line(line: seq<byte>) {
    line != [] && NoCrlf(line)
  }

  lemma HeaderIsLine(line: seq<byte>, size: nat)
    requires Header(line, size)
    ensures Line(line)
  {
    EmptyLineNamesNothing();
  }

  lemma LineStart(line: seq<byte>, rest: seq<byte>)
    requires Line(line)
    ensures !StartsWithCrlf(line + CRLF + rest)
  {
    assert !StartsWithCrlf(line[0..]);
  }

  lemma DecodeBadHeader(line: seq<byte>, after: seq<byte>)
    requires NoCrlf(line) && SizeOf(line).Err?
    ensures Decode(line + CRLF + after) == Err(SizeOf(line).error)
  {
    hide SizeOf, FindCrlf, NoCrlf, Decode;
    var s := line + CRLF + after;
    DecodeUnfolds(s);
    FindAfterLine(line, after);
    assert s[..|line|] == line;
  }

  /** One step of decoding on a header line, whatever follows it. */
  lemma DecodeHeader(line: seq<byte>, size: nat, after: seq<byte>)
    requires Header(line, size)
    ensures Decode(line + CRLF + after) ==
            if size == 0 then Ok([])
            else if |after| < size then Err(TruncatedData)
            else Prepend(after[..size], Decode(SkipCrlf(after[size..])))
  {
    hide SizeOf, FindCrlf, NoCrlf, SkipCrlf, Decode;
    var s := line + CRLF + after;
    DecodeUnfolds(s);
    FindAfterLine(line, after);
    assert s[..|line|] == line && s[|line| + 2..] == after;
  }

  function Closing(c: Chunk): seq<byte> {
    if c.closed then CRLF else []
  }

  lemma EncodeCons(chunks: seq<Chunk>, last: seq<byte>, rest: seq<byte>)
    requires chunks != []
    ensures var c := chunks[0];
            Encode(chunks, last) + rest == c.line + CRLF + (c.data + (Closing(c) + (Encode(chunks[1..], last) + rest)))
  {
    var c, more := chunks[0], Encode(chunks[1..], last);
    assert Encode(chunks, last) == c.line + CRLF + c.data + Closing(c) + more;
  }

  lemma EncodeStart(chunks: seq<Chunk>, last: seq<byte>, rest: seq<byte>)
    requires Line(last) && (chunks != [] ==> Line(chunks[0].line))
    ensures !StartsWithCrlf(Encode(chunks, last) + rest)
  {
    hide Line, StartsWithCrlf;
    if chunks == [] {
      LineStart(last, rest);
    } else {
      var c := chunks[0];
      EncodeCons(chunks, last, rest);
      LineStart(c.line, c.data + (Closing(c) + (Encode(chunks[1..], last) + rest)));
    }
  }

  lemma FramedStart(chunks: seq<Chunk>, last: seq<byte>, rest: seq<byte>)
    requires Framed(chunks) && Header(last, 0)
    ensures !StartsWithCrlf(Encode(chunks, last) + rest)
  {
    hide Encode, Header, StartsWithCrlf;
    HeaderIsLine(last, 0);
    if chunks != [] {
      HeaderIsLine(chunks[0].line, |chunks[0].data|);
    }
    EncodeStart(chunks, last, rest);
  }

  lemma SkipAfter(c: Chunk, rest: seq<byte>)
    requires !StartsWithCrlf(rest)
    ensures SkipCrlf(Closing(c) + rest) == rest
  {
    if c.closed {
      assert (CRLF + rest)[2..] == rest;
    } else {
      assert [] + rest == rest;
    }
  }

  /** Decoding one whole chunk, whatever follows. */
  lemma DecodeChunk(line: seq<byte>, data: seq<byte>, after: seq<byte>)
    requires Header(line, |data|) && data != []
    ensures Decode(line + CRLF + (data + after)) == Prepend(data, Decode(SkipCrlf(after)))
  {
    hide Decode, SkipCrlf, Header;
    DecodeHeader(line, |data|, data + after);
    assert (data + after)[..|data|] == data && (data + after)[|data|..] == after;
  }

  /** Decoding any framing returns the data, whatever trailers follow the zero chunk. */
  lemma {:induction false} RoundTrip(chunks: seq<Chunk>, last: seq<byte>, rest: seq<byte>)
    requires Framed(chunks) && Header(last, 0)
    ensures Decode(Encode(chunks, last) + rest) == Ok(Content(chunks))
  {
    hide Decode, SkipCrlf, Header, Encode, StartsWithCrlf, Closing;
    if chunks == [] {
      DecodeHeader(last, 0, rest);
      assert Encode(chunks, last) == last + CRLF by { EncodeNothing(last); }
    } else {
      var c, more := chunks[0], Encode(chunks[1..], last) + rest;
      RoundTrip(chunks[1..], last, rest);
      FramedStart(chunks[1..], last, rest);
      SkipAfter(c, more);
      EncodeCons(chunks, last, rest);
      DecodeChunk(c.line, c.data, Closing(c) + more);
    }
  }

  lemma EncodeNothing(last: seq<byte>)
    ensures Encode([], last) == last + CRLF
  {
  }

  /** Conversely, whatever the decoder accepts is such a framing. */
  lemma {:induction false} AcceptedIsFramed(input: seq<byte>) returns (chunks: seq<Chunk>, last: seq<byte>, rest: seq<byte>)
    requires Decode(input).Ok?
    ensures Framed(chunks) && Header(last, 0)
    ensures input == Encode(chunks, last) + rest && Decode(input) == Ok(Content(chunks))
    decreases |input|
  {
    hide Decode, SizeOf, FindCrlf, NoCrlf, Encode, SkipCrlf, StartsWithCrlf, Closing;
    DecodeUnfolds(input);
    FoundLine(input);
    var e := FindCrlf(input).value;
    var line, after := input[..e], input[e + 2..];
    var size := SizeOf(line).value;
    if size == 0 {
      chunks, last, rest := [], line, after;
      EncodeNothing(last);
    } else {
      var data, more := after[..size], after[size..];
      var tail, l, r := AcceptedIsFramed(SkipCrlf(more));
      var c := Chunk(line, data, StartsWithCrlf(more));
      chunks, last, rest := [c] + tail, l, r;
      SkipSplits(c, more);
      FrameFirst(input, c, tail, last, rest);
    }
  }

  lemma SkipSplits(c: Chunk, more: seq<byte>)
    requires c.closed == StartsWithCrlf(more)
    ensures more == Closing(c) + SkipCrlf(more)
  {
  }

  lemma FrameFirst(input: seq<byte>, c: Chunk, tail: seq<Chunk>, last: seq<byte>, rest: seq<byte>)
    requires input == c.line + CRLF + (c.data + (Closing(c) + (Encode(tail, last) + rest)))
    ensures input == Encode([c] + tail, last) + rest && Content([c] + tail) == c.data + Content(tail)
  {
    hide Encode;
    assert ([c] + tail)[1..] == tail;
    EncodeCons([c] + tail, last, rest);
  }

  // ---------------------------------------------------------------- truncation

  lemma {:induction false} NoCrlfBefore(line: seq<byte>, k: nat)
    requires NoCrlf(line) && k < |line| + 2
    ensures NoCrlf((line + CRLF)[..k])
  {
    var cut := (line + CRLF)[..k];
    forall i | 0 <= i <= |cut| ensures !StartsWithCrlf(cut[i..]) {
      if i <= |line| {
        assert !StartsWithCrlf(line[i..]);
      }
    }
  }

  /** Headers that name their data's size or are refused. */
  predicate Sized(chunks: seq<Chunk>) {
    forall c <- chunks :: c.data != [] && Line(c.line) && (SizeOf(c.line).Ok? ==> SizeOf(c.line) == Ok(|c.data|))
  }

  /** Every prefix of a framing, cut before the end of the zero chunk's CRLF, is refused. */
  lemma {:induction false} PrefixRefused(chunks: seq<Chunk>, last: seq<byte>, n: nat)
    requires Sized(chunks) && Line(last) && n < |Encode(chunks, last)|
    ensures Decode(Encode(chunks, last)[..n]).Err?
    decreases |chunks|, 1
  {
    hide Decode, SizeOf;
    var whole := Encode(chunks, last);
    var line := if chunks == [] then last else chunks[0].line;
    if n < |line| + 2 {
      NoCrlfBefore(line, n);
      assert whole[..n] == (line + CRLF)[..n];
      Headless(whole[..n]);
    } else {
      CutAfterHeader(chunks, last, n);
    }
  }

  lemma {:induction false} CutAfterHeader(chunks: seq<Chunk>, last: seq<byte>, n: nat)
    requires Sized(chunks) && Line(last) && chunks != []
    requires |chunks[0].line| + 2 <= n < |Encode(chunks, last)|
    ensures Decode(Encode(chunks, last)[..n]).Err?
    decreases |chunks|, 0
  {
    hide Decode, SizeOf, Encode, Closing, SkipCrlf, StartsWithCrlf, NoCrlf;
    var c, more := chunks[0], Encode(chunks[1..], last);
    var m := n - |c.line| - 2;
    EncodeCons(chunks, last, []);
    assert Encode(chunks, last) + [] == Encode(chunks, last) && more + [] == more;
    if m < |c.data| {
      CutData(c, more, n);
      if SizeOf(c.line).Ok? {
        DecodeHeader(c.line, |c.data|, c.data[..m]);
      } else {
        DecodeBadHeader(c.line, c.data[..m]);
      }
    } else {
      var k := m - |c.data|;
      assert k < |Closing(c)| + |more|;
      var after := (Closing(c) + more)[..k];
      CutPastData(c, more, n);
      if SizeOf(c.line).Err? {
        DecodeBadHeader(c.line, c.data + after);
      } else {
        DecodeChunk(c.line, c.data, after);
        EncodeStart(chunks[1..], last, []);
        SkipCut(c, more, k);
        if k < |Closing(c)| {
          Headless(SkipCrlf(after));
        } else {
          PrefixRefused(chunks[1..], last, k - |Closing(c)|);
        }
      }
    }
  }

  lemma CutData(c: Chunk, more: seq<byte>, n: nat)
    requires |c.line| + 2 <= n < |c.line| + 2 + |c.data|
    ensures (c.line + CRLF + (c.data + (Closing(c) + more)))[..n] == c.line + CRLF + c.data[..n - |c.line| - 2]
  {
  }

  lemma CutPastData(c: Chunk, more: seq<byte>, n: nat)
    requires |c.line| + 2 + |c.data| <= n <= |c.line| + 2 + |c.data| + |Closing(c)| + |more|
    ensures (c.line + CRLF + (c.data + (Closing(c) + more)))[..n] ==
            c.line + CRLF + (c.data + (Closing(c) + more)[..n - |c.line| - 2 - |c.data|])
  {
  }

  lemma SkipCut(c: Chunk, more: seq<byte>, k: nat)
    requires !StartsWithCrlf(more) && k <= |Closing(c)| + |more|
    ensures var after := SkipCrlf((Closing(c) + more)[..k]);
            if k < |Closing(c)| then NoCrlf(after) else after == more[..k - |Closing(c)|]
  {
  }

  lemma Headless(s: seq<byte>)
    requires NoCrlf(s)
    ensures Decode(s) == Err(TruncatedHeader)
  {
    FindNothing(s);
  }

  // ---------------------------------------------------------------- section 7.1 of RFC 9112

  /** A chunk header: hexadecimal digits, blanks, and extensions opening with a semicolon. */
  datatype SizeLine = SizeLine(hex: string, blanks: string, extensions: seq<byte>) {

    function Bytes(): seq<byte> {
      Utf8.Encode(hex + blanks) + extensions
    }

    predicate Names(size: nat) {
      && AllHex(hex) && HexValue(hex) == size && size < SIZE_LIMIT
      && (forall k :: 0 <= k < |blanks| ==> blanks[k] == ' ' || blanks[k] == '\t')
      && (extensions != [] ==> extensions[0] == ';' as int)
      && NoCrlf(Bytes())
    }

    predicate Readable() {
      Utf8.Decode(extensions).Some?
    }
  }

  datatype WireChunk = WireChunk(header: SizeLine, data: seq<byte>)

  function Wire(body: seq<WireChunk>): (r: seq<Chunk>)
    ensures |r| == |body|
  {
    if body == [] then [] else [Chunk(body[0].header.Bytes(), body[0].data, true)] + Wire(body[1..])
  }

  lemma {:induction false} BeforeSemicolonOf(text: string, tail: string)
    requires forall k :: 0 <= k < |text| ==> text[k] != ';'
    requires tail != [] ==> tail[0] == ';'
    ensures BeforeSemicolon(text + tail) == text
  {
    if text != [] {
      BeforeSemicolonOf(text[1..], tail);
      assert (text + tail)[1..] == text[1..] + tail;
    }
  }

  lemma {:induction false} TrimBlanks(hex: string, blanks: string)
    requires AllHex(hex) && forall k :: 0 <= k < |blanks| ==> blanks[k] == ' ' || blanks[k] == '\t'
    ensures TrimEnd(TrimStart(hex + blanks)) == hex
  {
    if blanks == [] {
      assert hex + blanks == hex;
    } else {
      var n := |blanks| - 1;
      TrimBlanks(hex, blanks[..n]);
      assert (hex + blanks)[..|hex + blanks| - 1] == hex + blanks[..n];
    }
  }

  lemma ExtensionStart(extensions: seq<byte>)
    requires extensions != [] && extensions[0] == ';' as int && Utf8.Decode(extensions).Some?
    ensures Utf8.Decode(extensions).value != [] && Utf8.Decode(extensions).value[0] == ';'
  {
  }

  /** A header line names its size, unless its extensions are not UTF-8. */
  lemma SizeLineNames(line: SizeLine, size: nat)
    requires line.Names(size)
    ensures SizeOf(line.Bytes()) == if line.Readable() then Ok(size) else Err(NonUtf8Size)
  {
    hide Utf8.Decode, BeforeSemicolon, TrimStart, TrimEnd, NoCrlf;
    var text := line.hex + line.blanks;
    Utf8.DecodePrepends(text, line.extensions);
    if line.Readable() {
      var tail := Utf8.Decode(line.extensions).value;
      if line.extensions != [] {
        ExtensionStart(line.extensions);
      } else {
        assert tail == "" by { EmptyDecodes(); }
      }
      BeforeSemicolonOf(text, tail);
      TrimBlanks(line.hex, line.blanks);
    }
  }

  lemma EmptyDecodes()
    ensures Utf8.Decode([]) == Some("")
  {
  }

  lemma SizeLineIsLine(line: SizeLine, size: nat)
    requires line.Names(size)
    ensures Line(line.Bytes())
  {
    Utf8.DecodePrepends(line.hex + line.blanks, []);
    assert Utf8.Encode(line.hex + line.blanks) != [];
  }

  /**
   * Decoding any well-formed body returns its data, whatever the data holds and whatever trailers follow,
   * unless some header carries extensions that are not UTF-8; then it is refused for that.
   */
  lemma {:induction false} WireRoundTrip(body: seq<WireChunk>, last: SizeLine, trailers: seq<byte>)
    requires last.Names(0) && forall c <- body :: c.data != [] && c.header.Names(|c.data|)
    ensures Decode(Encode(Wire(body), last.Bytes()) + trailers) ==
            if last.Readable() && forall c <- body :: c.header.Readable() then Ok(Content(Wire(body))) else Err(NonUtf8Size)
  {
    hide Decode, SizeOf, NoCrlf, Line, Encode, StartsWithCrlf, Closing, SkipCrlf;
    hide SizeLine.Bytes, SizeLine.Readable;
    if body == [] {
      SizeLineNames(last, 0);
      EncodeNothing(last.Bytes());
      if last.Readable() {
        DecodeHeader(last.Bytes(), 0, trailers);
      } else {
        DecodeBadHeader(last.Bytes(), trailers);
      }
    } else {
      var c, chunks := body[0], Wire(body);
      var line, more := c.header.Bytes(), Encode(chunks[1..], last.Bytes()) + trailers;
      SizeLineNames(c.header, |c.data|);
      EncodeCons(chunks, last.Bytes(), trailers);
      if c.header.Readable() {
        WireRoundTrip(body[1..], last, trailers);
        SizeLineIsLine(last, 0);
        if body[1..] != [] {
          SizeLineIsLine(body[1].header, |body[1].data|);
        }
        EncodeStart(chunks[1..], last.Bytes(), trailers);
        SkipAfter(chunks[0], more);
        DecodeChunk(line, c.data, Closing(chunks[0]) + more);
        assert (forall x <- body :: x.header.Readable()) <==> forall x <- body[1..] :: x.header.Readable();
      } else {
        DecodeBadHeader(line, c.data + (Closing(chunks[0]) + more));
      }
    }
  }

  lemma {:induction false} WireIsSized(body: seq<WireChunk>)
    requires forall c <- body :: c.data != [] && c.header.Names(|c.data|)
    ensures Sized(Wire(body))
  {
    hide SizeOf, NoCrlf, Line, SizeLine.Bytes, SizeLine.Readable;
    if body != [] {
      WireIsSized(body[1..]);
      SizeLineNames(body[0].header, |body[0].data|);
      SizeLineIsLine(body[0].header, |body[0].data|);
    }
  }

  /** Every prefix of a well-formed body that ends before the zero chunk's CRLF does is refused. */
  lemma WirePrefixRefused(body: seq<WireChunk>, last: SizeLine, n: nat)
    requires last.Names(0) && forall c <- body :: c.data != [] && c.header.Names(|c.data|)
    requires n < |Encode(Wire(body), last.Bytes())|
    ensures Decode(Encode(Wire(body), last.Bytes())[..n]).Err?
  {
    hide Decode, Encode, Line, Sized;
    WireIsSized(body);
    SizeLineIsLine(last, 0);
    PrefixRefused(Wire(body), last.Bytes(), n);
  }
}
