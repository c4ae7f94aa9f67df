/** Double-quoted scalars as any JSON writer may spell them, section 7 of RFC 8259, read back as their text. */
module JsonStrings {
  import opened Domain
  import opened Frontmatter
  import opened Quoting

  /** How one character is written: as itself, by a two-character escape, or by code units in either case of digits. */
  datatype Form = Raw | Short | Units(upper: bool)

  function Digit(upper: bool, d: nat): char
    requires d < 16
  {
    if upper then "0123456789ABCDEF"[d] else "0123456789abcdef"[d]
  }

  /** `\uXXXX` */
  function Unit(upper: bool, n: nat): string
    requires n < 0x10000
  {
    ['\\', 'u', Digit(upper, n / 0x1000), Digit(upper, n / 0x100 % 16), Digit(upper, n / 16 % 16), Digit(upper, n % 16)]
  }

  /** The two-character escapes: the letter after the backslash and the character it stands for. */
  const SHORT: seq<(char, int)> :=
    [('\"', 0x22), ('\\', 0x5C), ('/', 0x2F), ('b', 8), ('f', 12), ('n', 10), ('r', 13), ('t', 9)]

  predicate Fits(c: char, form: Form) {
    match form
    case Raw => c as int >= 0x20 && c != '\"' && c != '\\'
    case Short => exists k :: 0 <= k < |SHORT| && SHORT[k].1 == c as int
    case Units(_) => true
  }

  function Letter(c: char, k: nat): char
    requires k <= |SHORT|
    decreases |SHORT| - k
  {
    if k == |SHORT| then '?' else if SHORT[k].1 == c as int then SHORT[k].0 else Letter(c, k + 1)
  }

  /** Beyond the basic plane a character is written as its two surrogates. */
  function Written(c: char, form: Form): string {
    var n := c as int;
    match form
    case Raw => [c]
    case Short => ['\\', Letter(c, 0)]
    case Units(upper) =>
      if n < 0x10000 then Unit(upper, n)
      else Unit(upper, 0xD800 + (n - 0x10000) / 0x400) + Unit(upper, 0xDC00 + (n - 0x10000) % 0x400)
  }

  function Spelled(text: string, forms: seq<Form>): string
    requires |forms| == |text|
  {
    if text == [] then "" else Written(text[0], forms[0]) + Spelled(text[1..], forms[1..])
  }

  function Codes(text: string): seq<int> {
    seq(|text|, k requires 0 <= k < |text| => text[k] as int)
  }

  // ---------------------------------------------------------------- one character

  lemma DigitReads(upper: bool, d: nat)
    requires d < 16
    ensures HexDigit(Digit(upper, d)) == Some(d)
  {
  }

  lemma UnitReads(upper: bool, n: nat, rest: string)
    requires n < 0x10000
    ensures EscapedCode(Unit(upper, n) + rest) == Some(n) && (Unit(upper, n) + rest)[6..] == rest
  {
    hide HexDigit, Digit;
    var s := Unit(upper, n) + rest;
    DigitReads(upper, n / 0x1000);
    DigitReads(upper, n / 0x100 % 16);
    DigitReads(upper, n / 16 % 16);
    DigitReads(upper, n % 16);
    SixteenthsOf(n);
    assert s[2..6] == Unit(upper, n)[2..6];
  }

  lemma UnitStarts(upper: bool, n: nat, rest: string)
    requires n < 0x10000
    ensures var s := Unit(upper, n) + rest; |s| >= 6 && s[0] == '\\' && s[1] == 'u'
  {
  }

  lemma BasicReads(upper: bool, n: nat, rest: string)
    requires n < 0x10000 && IsScalarValue(n)
    ensures JsonCodes(Unit(upper, n) + rest) == Then(n, JsonCodes(rest))
  {
    hide Unit, EscapedCode, JsonCodes;
    UnitReads(upper, n, rest);
    UnitStarts(upper, n, rest);
    JsonEscapeStep(Unit(upper, n) + rest);
  }

  lemma PairStep(s: string, high: nat, low: nat)
    requires |s| >= 12 && s[0] == '\\' && s[1] == 'u' && EscapedCode(s) == Some(high) && EscapedCode(s[6..]) == Some(low)
    requires 0xD800 <= high < 0xDC00 && 0xDC00 <= low < 0xE000
    ensures JsonCodes(s) == Then(0x10000 + (high - 0xD800) * 0x400 + (low - 0xDC00), JsonCodes(s[12..]))
  {
    hide EscapedCode;
  }

  lemma PairReads(upper: bool, n: nat, rest: string)
    requires 0x10000 <= n < 0x110000
    ensures var high, low := Unit(upper, 0xD800 + (n - 0x10000) / 0x400), Unit(upper, 0xDC00 + (n - 0x10000) % 0x400);
            JsonCodes(high + low + rest) == Then(n, JsonCodes(rest))
  {
    hide Unit, EscapedCode, JsonCodes;
    var a, b := 0xD800 + (n - 0x10000) / 0x400, 0xDC00 + (n - 0x10000) % 0x400;
    var high, low := Unit(upper, a), Unit(upper, b);
    var s := high + low + rest;
    assert s == high + (low + rest);
    UnitReads(upper, a, low + rest);
    UnitStarts(upper, a, low + rest);
    UnitReads(upper, b, rest);
    UnitStarts(upper, b, rest);
    assert s[6..] == low + rest;
    assert s[12..] == (low + rest)[6..];
    PairStep(s, a, b);
  }

  lemma ShortReads(c: char, rest: string)
    requires Fits(c, Short)
    ensures JsonCodes(['\\', Letter(c, 0)] + rest) == Then(c as int, JsonCodes(rest))
  {
    hide EscapedCode;
    var k :| 0 <= k < |SHORT| && SHORT[k].1 == c as int;
    var letter := Letter(c, 0);
    assert letter == SHORT[k].0 by { LetterOf(c, k); }
    var s := ['\\', letter] + rest;
    assert s[2..] == rest;
    assert Unescape(letter) == Some(c as int) && letter != 'u';
  }

  lemma LetterOf(c: char, k: nat)
    requires k < |SHORT| && SHORT[k].1 == c as int
    ensures Letter(c, 0) == SHORT[k].0
  {
    assert Letter(c, 0) == if SHORT[0].1 == c as int then SHORT[0].0 else Letter(c, 1);
    assert Letter(c, 1) == if SHORT[1].1 == c as int then SHORT[1].0 else Letter(c, 2);
    assert Letter(c, 2) == if SHORT[2].1 == c as int then SHORT[2].0 else Letter(c, 3);
    assert Letter(c, 3) == if SHORT[3].1 == c as int then SHORT[3].0 else Letter(c, 4);
    assert Letter(c, 4) == if SHORT[4].1 == c as int then SHORT[4].0 else Letter(c, 5);
    assert Letter(c, 5) == if SHORT[5].1 == c as int then SHORT[5].0 else Letter(c, 6);
    assert Letter(c, 6) == if SHORT[6].1 == c as int then SHORT[6].0 else Letter(c, 7);
  }

  lemma RawReads(c: char, rest: string)
    requires Fits(c, Raw)
    ensures JsonCodes([c] + rest) == Then(c as int, JsonCodes(rest))
  {
    assert ([c] + rest)[1..] == rest;
  }

  lemma WrittenReads(c: char, form: Form, rest: string)
    requires Fits(c, form)
    ensures JsonCodes(Written(c, form) + rest) == Then(c as int, JsonCodes(rest))
  {
    hide JsonCodes, Unit, Letter;
    var n := c as int;
    match form {
      case Raw => RawReads(c, rest);
      case Short => ShortReads(c, rest);
      case Units(upper) =>
        if n < 0x10000 {
          BasicReads(upper, n, rest);
        } else {
          PairReads(upper, n, rest);
        }
    }
  }

  // ---------------------------------------------------------------- whole strings

  predicate AllFit(text: string, forms: seq<Form>) {
    |forms| == |text| && forall k :: 0 <= k < |text| ==> Fits(text[k], forms[k])
  }

  lemma {:induction false} SpelledReads(text: string, forms: seq<Form>)
    requires AllFit(text, forms)
    ensures JsonCodes(Spelled(text, forms) + "\"") == Some(Codes(text))
  {
    hide Written, Fits;
    if text == [] {
      assert Spelled(text, forms) + "\"" == "\"";
    } else {
      hide JsonCodes;
      var rest := Spelled(text[1..], forms[1..]) + "\"";
      SpelledReads(text[1..], forms[1..]);
      WrittenReads(text[0], forms[0], rest);
      assert Spelled(text, forms) + "\"" == Written(text[0], forms[0]) + rest;
      assert Codes(text) == [text[0] as int] + Codes(text[1..]);
    }
  }

  lemma CodesAreText(text: string)
    ensures TextOf(Codes(text)) == Text(text)
  {
    var codes := Codes(text);
    forall k | 0 <= k < |codes| ensures IsScalarValue(codes[k]) {
      CharIsScalar(text[k]);
    }
    assert TextOf(codes).text == text;
  }

  lemma CharIsScalar(c: char)
    ensures IsScalarValue(c as int)
  {
  }

  /** However a JSON writer spells a text between double quotes, the scalar reads as that text. */
  lemma AnySpellingReads(text: string, forms: seq<Form>)
    requires AllFit(text, forms)
    ensures ScalarOf("\"" + Spelled(text, forms) + "\"") == Text(text)
  {
    hide JsonCodes, Spelled, TextOf;
    var body := Spelled(text, forms);
    var value := "\"" + body + "\"";
    assert value[1..] == body + "\"";
    SpelledReads(text, forms);
    CodesAreText(text);
  }
}
