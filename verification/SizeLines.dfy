/** Which header lines the chunk decoder reads, as what size, and why it refuses the rest. */
module SizeLines {
  import opened Domain
  import Utf8
  import opened Chunks

  // ---------------------------------------------------------------- hexadecimal numerals

  const LOWER: string := "0123456789abcdef"
  const UPPER: string := "0123456789ABCDEF"

  /** The numeral of `n` in the given digits, without leading zeros. */
  function Numeral(digits: string, n: nat): (r: string)
    requires |digits| == 16
    ensures r != []
  {
    if n < 16 then [digits[n]] else Numeral(digits, n / 16) + [digits[n % 16]]
  }

  lemma DigitReads(n: nat)
    requires n < 16
    ensures IsHex(LOWER[n]) && HexDigit(LOWER[n]) == n && IsHex(UPPER[n]) && HexDigit(UPPER[n]) == n
  {
  }

  lemma OneDigit(c: char)
    requires IsHex(c)
    ensures AllHex([c]) && HexValue([c]) == HexDigit(c)
  {
    hide IsHex, HexDigit;
  }

  lemma NextDigit(s: string, c: char)
    requires AllHex(s) && IsHex(c)
    ensures AllHex(s + [c]) && HexValue(s + [c]) == 16 * HexValue(s) + HexDigit(c)
  {
    hide IsHex, HexDigit;
    var t := s + [c];
    assert t[..|t| - 1] == s;
  }

  lemma {:induction false} NumeralReads(digits: string, n: nat)
    requires digits == LOWER || digits == UPPER
    ensures AllHex(Numeral(digits, n)) && HexValue(Numeral(digits, n)) == n
  {
    hide IsHex, HexDigit, AllHex, HexValue;
    DigitReads(n % 16);
    if n < 16 {
      OneDigit(digits[n]);
    } else {
      NumeralReads(digits, n / 16);
      NextDigit(Numeral(digits, n / 16), digits[n % 16]);
    }
  }

  function Zeros(k: nat): string {
    if k == 0 then "" else "0" + Zeros(k - 1)
  }

  lemma {:induction false} LeadingZero(s: string)
    requires AllHex(s)
    ensures AllHex("0" + s) && HexValue("0" + s) == HexValue(s)
  {
    hide IsHex, HexDigit;
    var n := |s| - 1;
    DigitReads(0);
    OneDigit('0');
    if n == 0 {
      NextDigit("0", s[0]);
      assert "0" + s == "0" + [s[0]];
      OneDigit(s[0]);
      assert s == [s[0]];
    } else {
      LeadingZero(s[..n]);
      NextDigit("0" + s[..n], s[n]);
      NextDigit(s[..n], s[n]);
      assert "0" + s == "0" + s[..n] + [s[n]] && s == s[..n] + [s[n]];
    }
  }

  lemma {:induction false} PaddedReads(k: nat, s: string)
    requires AllHex(s)
    ensures AllHex(Zeros(k) + s) && HexValue(Zeros(k) + s) == HexValue(s)
  {
    hide AllHex, HexValue;
    if k == 0 {
      assert Zeros(k) + s == s;
    } else {
      PaddedReads(k - 1, s);
      LeadingZero(Zeros(k - 1) + s);
      assert Zeros(k) + s == "0" + (Zeros(k - 1) + s);
    }
  }

  // ---------------------------------------------------------------- the grammar of a size line

  /** The characters of the Unicode White_Space property. */
  const WHITE: string :=
    "\t\n\U{B}\U{C}\r \U{85}\U{A0}\U{1680}\U{2000}\U{2001}\U{2002}\U{2003}\U{2004}\U{2005}\U{2006}\U{2007}\U{2008}\U{2009}\U{200A}\U{2028}\U{2029}\U{202F}\U{205F}\U{3000}"

  predicate White(s: string) {
    forall k :: 0 <= k < |s| ==> s[k] in WHITE
  }

  lemma SpaceIff(c: char)
    ensures IsSpace(c) <==> c in WHITE
  {
  }

  /** White space, a numeral with at most one plus sign before it, white space, and perhaps extensions. */
  datatype Spelling = Spelling(lead: string, plus: bool, digits: string, trail: string, rest: string) {

    function Token(): string {
      (if plus then "+" else "") + digits
    }

    function Text(): string {
      lead + Token() + trail + rest
    }

    predicate Spells(size: nat) {
      && White(lead) && White(trail) && (rest != "" ==> rest[0] == ';')
      && AllHex(digits) && HexValue(digits) == size < SIZE_LIMIT
    }
  }

  lemma {:induction false} TrimStartDrops(lead: string, s: string)
    requires White(lead) && s != [] && !IsSpace(s[0])
    ensures TrimStart(lead + s) == s
  {
    hide IsSpace, WHITE;
    if lead == [] {
      assert lead + s == s;
    } else {
      SpaceIff(lead[0]);
      TrimStartDrops(lead[1..], s);
      assert (lead + s)[1..] == lead[1..] + s;
    }
  }

  lemma {:induction false} TrimEndDrops(s: string, trail: string)
    requires White(trail) && s != [] && !IsSpace(s[|s| - 1])
    ensures TrimEnd(s + trail) == s
  {
    hide IsSpace, WHITE;
    if trail == [] {
      assert s + trail == s;
    } else {
      var n := |trail| - 1;
      SpaceIff(trail[n]);
      TrimEndDrops(s, trail[..n]);
      assert (s + trail)[..|s + trail| - 1] == s + trail[..n];
    }
  }

  lemma {:induction false} TrimStartSplits(s: string) returns (lead: string)
    ensures White(lead) && s == lead + TrimStart(s)
  {
    hide IsSpace, WHITE;
    if s != [] && IsSpace(s[0]) {
      SpaceIff(s[0]);
      var l := TrimStartSplits(s[1..]);
      lead := [s[0]] + l;
    } else {
      lead := "";
    }
  }

  lemma {:induction false} TrimEndSplits(s: string) returns (trail: string)
    ensures White(trail) && s == TrimEnd(s) + trail
  {
    hide IsSpace, WHITE;
    if s != [] && IsSpace(s[|s| - 1]) {
      SpaceIff(s[|s| - 1]);
      var t := TrimEndSplits(s[..|s| - 1]);
      trail := t + [s[|s| - 1]];
    } else {
      trail := "";
    }
  }

  lemma {:induction false} SemicolonSplits(s: string) returns (rest: string)
    ensures s == BeforeSemicolon(s) + rest && (rest != "" ==> rest[0] == ';')
  {
    if s == [] || s[0] == ';' {
      rest := s;
    } else {
      rest := SemicolonSplits(s[1..]);
    }
  }

  lemma SpellingReads(p: Spelling, size: nat)
    requires p.Spells(size)
    ensures ParseHex(TrimEnd(TrimStart(BeforeSemicolon(p.Text())))) == Some(size)
  {
    hide HexValue, TrimStart, TrimEnd, BeforeSemicolon, IsSpace, WHITE;
    var token := p.Token();
    var last := token[|token| - 1];
    assert last == p.digits[|p.digits| - 1];
    VisibleCharacters(token[0]);
    VisibleCharacters(last);
    NoSemicolon(p);
    BeforeSemicolonOf(p.lead + token + p.trail, p.rest);
    assert p.lead + token + p.trail == p.lead + (token + p.trail);
    TrimStartDrops(p.lead, token + p.trail);
    TrimEndDrops(token, p.trail);
    assert p.plus ==> token[1..] == p.digits;
    assert !p.plus ==> token == p.digits;
  }

  lemma VisibleCharacters(c: char)
    requires IsHex(c) || c == '+'
    ensures !IsSpace(c)
  {
  }

  lemma NoSemicolon(p: Spelling)
    requires White(p.lead) && White(p.trail) && AllHex(p.digits)
    ensures var s := p.lead + p.Token() + p.trail; forall k :: 0 <= k < |s| ==> s[k] != ';'
  {
    assert ';' !in WHITE by { SpaceIff(';'); }
  }

  lemma ReadIsSpelled(text: string, size: nat) returns (p: Spelling)
    requires ParseHex(TrimEnd(TrimStart(BeforeSemicolon(text)))) == Some(size)
    ensures p.Spells(size) && text == p.Text()
  {
    hide HexValue, TrimStart, TrimEnd, BeforeSemicolon, IsSpace, WHITE, White, IsHex;
    var head := BeforeSemicolon(text);
    var rest := SemicolonSplits(text);
    var lead := TrimStartSplits(head);
    var body := TrimStart(head);
    var trail := TrimEndSplits(body);
    var token := TrimEnd(body);
    var plus := |token| >= 2 && token[0] == '+';
    p := Spelling(lead, plus, if plus then token[1..] else token, trail, rest);
    assert p.Token() == token;
    assert text == lead + (token + trail) + rest;
  }

  ghost predicate SpelledBy(line: seq<Utf8.byte>, p: Spelling, size: nat) {
    line == Utf8.Encode(p.Text()) && p.Spells(size)
  }

  /** The line is the UTF-8 of a spelling of the size. */
  ghost predicate Spelled(line: seq<Utf8.byte>, size: nat) {
    exists p: Spelling :: SpelledBy(line, p, size)
  }

  ghost predicate IsText(line: seq<Utf8.byte>) {
    exists text: string :: line == Utf8.Encode(text)
  }

  /** A line names a size exactly when it is a spelling of it, and is otherwise refused for its encoding or its text. */
  lemma SizeOfIff(line: seq<Utf8.byte>, size: nat)
    ensures SizeOf(line) == Ok(size) <==> Spelled(line, size)
    ensures SizeOf(line) == Err(NonUtf8Size) <==> !IsText(line)
    ensures SizeOf(line).Err? ==> SizeOf(line).error.NonUtf8Size? || SizeOf(line).error.InvalidSize?
    ensures SizeOf(line) == Err(InvalidSize) <==> IsText(line) && !exists n: nat :: Spelled(line, n)
  {
    hide ParseHex, TrimStart, TrimEnd, BeforeSemicolon, Spelling.Text, Spelling.Spells, Utf8.Decode, Utf8.Encode;
    Utf8.EncodeDecode(line);
    forall text: string | line == Utf8.Encode(text) ensures Utf8.Decode(line) == Some(text) {
      Utf8.DecodeEncode(text);
    }
    forall n: nat | SizeOf(line) == Ok(n) ensures Spelled(line, n) {
      var p := ReadIsSpelled(Utf8.Decode(line).value, n);
      assert SpelledBy(line, p, n);
    }
    forall n: nat | Spelled(line, n) ensures SizeOf(line) == Ok(n) {
      var p :| SpelledBy(line, p, n);
      SpellingReads(p, n);
    }
  }

  /** In either case of digits, with any leading zeros and either sign, every size below 2^64 is read. */
  lemma SizesRead(size: nat, digits: string, zeros: nat, plus: bool)
    requires size < 0x1_0000_0000_0000_0000 && (digits == LOWER || digits == UPPER)
    ensures SizeOf(Utf8.Encode((if plus then "+" else "") + (Zeros(zeros) + Numeral(digits, size)))) == Ok(size)
  {
    hide SizeOf, HexValue, AllHex, Utf8.Encode;
    NumeralReads(digits, size);
    PaddedReads(zeros, Numeral(digits, size));
    var p := Spelling("", plus, Zeros(zeros) + Numeral(digits, size), "", "");
    assert p.Text() == p.Token();
    assert SpelledBy(Utf8.Encode(p.Token()), p, size);
    SizeOfIff(Utf8.Encode(p.Token()), size);
  }

  // ---------------------------------------------------------------- refusals

  function Frames(chunks: seq<Chunk>): seq<Utf8.byte> {
    if chunks == [] then [] else Frame(chunks[0]) + Frames(chunks[1..])
  }

  /** After whole chunks: no line ends, or a line of no text, or of no size, or of more than is left. */
  ghost predicate Refused(error: ParseError, line: seq<Utf8.byte>, after: Option<seq<Utf8.byte>>) {
    && NoCrlf(line)
    && match error
       case TruncatedHeader => after.None?
       case NonUtf8Size => after.Some? && !IsText(line)
       case InvalidSize => after.Some? && IsText(line) && !exists n: nat :: Spelled(line, n)
       case TruncatedData => after.Some? && exists n: nat :: Spelled(line, n) && |after.value| < n
  }

  function Remainder(line: seq<Utf8.byte>, after: Option<seq<Utf8.byte>>): seq<Utf8.byte> {
    if after.None? then line else line + CRLF + after.value
  }

  /** Every refused input is whole chunks followed by what it is refused for. */
  lemma {:induction false} RefusalExplained(input: seq<Utf8.byte>) returns (chunks: seq<Chunk>, line: seq<Utf8.byte>, after: Option<seq<Utf8.byte>>)
    requires Decode(input).Err?
    ensures Framed(chunks) && input == Frames(chunks) + Remainder(line, after)
    ensures Refused(Decode(input).error, line, after)
    decreases |input|
  {
    hide Decode, SizeOf, FindCrlf, NoCrlf, SkipCrlf, StartsWithCrlf, Closing, Spelled, IsText, Frames;
    DecodeUnfolds(input);
    NoFrames();
    if FindCrlf(input).None? {
      chunks, line, after := [], input, None;
      NothingFound(input);
    } else {
      FoundLine(input);
      var e := FindCrlf(input).value;
      var rest := input[e + 2..];
      chunks, line, after := [], input[..e], Some(rest);
      var size := SizeOf(line);
      SizeOfIff(line, if size.Ok? then size.value else 0);
      if size.Ok? && |rest| < size.value {
        assert Spelled(line, size.value) && |after.value| < size.value;
      }
      if size.Ok? && |rest| >= size.value {
        var data, more := rest[..size.value], rest[size.value..];
        var tail, l, a := RefusalExplained(SkipCrlf(more));
        var c := Chunk(line, data, StartsWithCrlf(more));
        chunks, line, after := [c] + tail, l, a;
        SkipSplits(c, more);
        FirstFrame(input, c, tail, Remainder(l, a));
      }
    }
  }

  lemma NoFrames()
    ensures Frames([]) == []
  {
  }

  lemma {:induction false} NothingFound(s: seq<Utf8.byte>)
    requires FindCrlf(s).None?
    ensures NoCrlf(s)
  {
    if |s| >= 2 {
      NothingFound(s[1..]);
      forall k | 0 <= k <= |s| ensures !StartsWithCrlf(s[k..]) {
        if k > 0 {
          assert s[k..] == s[1..][k - 1..];
        }
      }
    }
  }

  lemma FirstFrame(input: seq<Utf8.byte>, c: Chunk, tail: seq<Chunk>, rest: seq<Utf8.byte>)
    requires input == c.line + CRLF + (c.data + (Closing(c) + (Frames(tail) + rest)))
    ensures input == Frames([c] + tail) + rest
  {
    assert ([c] + tail)[1..] == tail;
    assert Frames([c] + tail) == c.line + CRLF + c.data + Closing(c) + Frames(tail);
  }
}
