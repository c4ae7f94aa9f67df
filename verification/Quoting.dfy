/** Quoted values survive the frontmatter reader. */
module Quoting {
  import opened Domain
  import Lex
  import opened Frontmatter

  // ---------------------------------------------------------------- the quoted text, character by character

  function QuotedChar(c: char): string {
    Translate(JsonChar(c))
  }

  /** What stands between the quotes, read off the value itself. */
  function Body(s: string): string {
    if s == [] then ""
    else if StartsWith(s, COMMENT) then "   " + EscapeU(0x23) + Body(s[4..])
    else QuotedChar(s[0]) + Body(s[1..])
  }

  lemma {:induction false} TranslateConcat(a: string, b: string)
    ensures Translate(a + b) == Translate(a) + Translate(b)
  {
    hide TranslateChar;
    if a == [] {
      assert a + b == b;
    } else {
      assert (a + b)[1..] == a[1..] + b;
      TranslateConcat(a[1..], b);
    }
  }

  predicate Spaceless(s: string) {
    forall k :: 0 <= k < |s| ==> s[k] != ' '
  }

  predicate Ascii(s: string) {
    forall k :: 0 <= k < |s| ==> ' ' <= s[k] < 127 as char
  }

  lemma {:induction false} TranslateAscii(s: string)
    requires Ascii(s)
    ensures Translate(s) == s
  {
    if s != [] {
      TranslateAscii(s[1..]);
    }
  }

  lemma EscapeIsPlain(n: nat)
    requires n < 0x10000
    ensures Spaceless(EscapeU(n)) && Ascii(EscapeU(n)) && |EscapeU(n)| == 6
  {
  }

  lemma JsonCharShape(c: char)
    ensures JsonChar(c) == [c] || (Spaceless(JsonChar(c)) && Ascii(JsonChar(c)) && c != ' ' && c != '#')
    ensures JsonChar(c) != [] && (JsonChar(c)[0] == c || JsonChar(c)[0] == '\\')
  {
    if c < ' ' {
      EscapeIsPlain(c as int);
    }
  }

  lemma {:induction false} ReplaceSpaceless(a: string, b: string)
    requires Spaceless(a)
    ensures ReplaceComments(a + b) == a + ReplaceComments(b)
  {
    hide StartsWith;
    if a == [] {
      assert a + b == b;
    } else {
      assert (a + b)[1..] == a[1..] + b && (a + b)[0] == a[0];
      NotComment(a + b, 0);
      ReplaceSpaceless(a[1..], b);
      assert a == [a[0]] + a[1..];
    }
  }

  predicate BlankOrHash(p: string) {
    forall k :: 0 <= k < |p| ==> p[k] == ' ' || p[k] == '#'
  }

  lemma Peel(s: string, p: string)
    requires p != []
    ensures StartsWith(s, p) <==> s != [] && s[0] == p[0] && StartsWith(s[1..], p[1..])
  {
    if s != [] && s[0] == p[0] && StartsWith(s[1..], p[1..]) {
      assert s == [s[0]] + s[1..] && p == [p[0]] + p[1..];
    }
    if StartsWith(s, p) {
      assert s[1..][..|p| - 1] == s[..|p|][1..];
    }
  }

  /** Blanks and hashes in the escaped value are those of the value. */
  lemma {:induction false} PlainInDump(s: string, p: string)
    requires BlankOrHash(p)
    ensures StartsWith(JsonChars(s) + "\"", p) <==> StartsWith(s, p)
    ensures StartsWith(s, p) ==> JsonChars(s) == p + JsonChars(s[|p|..])
  {
    hide JsonChar, StartsWith;
    var t := JsonChars(s) + "\"";
    if p == [] {
      StartsWithNothing(s);
      StartsWithNothing(t);
      assert s[0..] == s;
    } else {
      Peel(s, p);
      Peel(t, p);
      if s != [] {
        JsonCharShape(s[0]);
        PlainInDump(s[1..], p[1..]);
        if s[0] == p[0] {
          assert JsonChar(s[0]) == [s[0]];
          assert t[1..] == JsonChars(s[1..]) + "\"";
          if StartsWith(s, p) {
            assert s[1..][|p[1..]|..] == s[|p|..];
            assert p == [p[0]] + p[1..];
          }
        }
      }
    }
  }

  lemma StartsWithNothing(s: string)
    ensures StartsWith(s, "")
  {
  }

  /** Quoting writes the body between quotes. */
  lemma QuotedIsBody(s: string)
    ensures Quoted(s) == "\"" + Body(s) + "\""
  {
    hide Translate, JsonChars, Body, ReplaceComments;
    var dump := JsonChars(s) + "\"";
    assert JsonDumps(s) == "\"" + dump;
    ReplaceSpaceless("\"", dump);
    TranslateConcat("\"", ReplaceComments(dump));
    TranslateAscii("\"");
    DumpIsBody(s);
  }

  const MARK: string := "   " + EscapeU(0x23)

  lemma ReplaceMark(t: string)
    requires StartsWith(t, COMMENT)
    ensures ReplaceComments(t) == MARK + ReplaceComments(t[4..])
  {
  }

  lemma ReplaceFirst(c: char, t: string)
    requires !StartsWith([c] + t, COMMENT)
    ensures ReplaceComments([c] + t) == [c] + ReplaceComments(t)
  {
    assert ([c] + t)[1..] == t;
  }

  lemma BodyUnfolds(s: string)
    ensures s == [] ==> Body(s) == ""
    ensures StartsWith(s, COMMENT) ==> Body(s) == MARK + Body(s[4..])
    ensures s != [] && !StartsWith(s, COMMENT) ==> Body(s) == QuotedChar(s[0]) + Body(s[1..])
  {
    hide QuotedChar;
  }

  lemma MarkIsAscii()
    ensures Ascii(MARK)
  {
    EscapeIsPlain(0x23);
  }

  lemma {:induction false} DumpIsBody(s: string)
    ensures Translate(ReplaceComments(JsonChars(s) + "\"")) == Body(s) + "\""
    decreases |s|
  {
    hide JsonChar, Translate, StartsWith, MARK, Body, ReplaceComments;
    var dump := JsonChars(s) + "\"";
    PlainInDump(s, COMMENT);
    BodyUnfolds(s);
    if s == [] {
      QuoteAlone();
      assert dump == "\"";
    } else if StartsWith(s, COMMENT) {
      var rest := s[4..];
      DumpIsBody(rest);
      ReplaceMark(dump);
      assert dump[4..] == JsonChars(rest) + "\"";
      TranslateConcat(MARK, ReplaceComments(dump[4..]));
      MarkIsAscii();
      TranslateAscii(MARK);
    } else {
      var rest := JsonChars(s[1..]) + "\"";
      DumpIsBody(s[1..]);
      assert dump == JsonChar(s[0]) + rest;
      JsonCharShape(s[0]);
      if JsonChar(s[0]) == [s[0]] {
        ReplaceFirst(s[0], rest);
      } else {
        ReplaceSpaceless(JsonChar(s[0]), rest);
      }
      TranslateConcat(JsonChar(s[0]), ReplaceComments(rest));
    }
  }

  lemma QuoteAlone()
    ensures Translate(ReplaceComments("\"")) == "\""
  {
    assert "\"" + "" == "\"";
    ReplaceSpaceless("\"", "");
    TranslateAscii("\"");
  }

  lemma QuotedCharCases(c: char)
    ensures QuotedChar(c) == if c as int in {0x85, 0x2028, 0x2029} then EscapeU(c as int) else JsonChar(c)
  {
    hide EscapeU;
    JsonCharShape(c);
    if JsonChar(c) == [c] {
      assert [c][1..] == "" && [c][0] == c;
      assert Translate([c]) == TranslateChar(c) + "";
    } else {
      TranslateAscii(JsonChar(c));
    }
  }

  // ---------------------------------------------------------------- the JSON reader undoes it

  function Codes(s: string): (r: seq<int>)
    ensures |r| == |s| && forall k :: 0 <= k < |s| ==> r[k] == s[k] as int
  {
    seq(|s|, k requires 0 <= k < |s| => s[k] as int)
  }

  lemma HexOf(d: nat)
    requires d < 16
    ensures HexDigit(HexChar(d)) == Some(d)
  {
  }

  lemma DecodeEscape(n: nat, rest: string)
    requires n < 0x10000 && IsScalarValue(n)
    ensures JsonCodes(EscapeU(n) + rest) == Then(n, JsonCodes(rest))
  {
    hide EscapeU, EscapedCode, JsonCodes;
    EscapedCodeOf(n, rest);
    JsonEscapeStep(EscapeU(n) + rest);
  }

  lemma EscapedCodeOf(n: nat, rest: string)
    requires n < 0x10000
    ensures |EscapeU(n)| == 6 && (EscapeU(n) + rest)[6..] == rest
    ensures EscapedCode(EscapeU(n) + rest) == Some(n)
  {
    var a, b, c, d := n / 0x1000, n / 0x100 % 16, n / 16 % 16, n % 16;
    HexOf(a);
    HexOf(b);
    HexOf(c);
    HexOf(d);
    SixteenthsOf(n);
    hide HexChar, HexDigit;
    var s := EscapeU(n) + rest;
    assert s[2..6] == [HexChar(a), HexChar(b), HexChar(c), HexChar(d)];
  }

  lemma SixteenthsOf(n: nat)
    ensures n / 0x1000 * 0x1000 + n / 0x100 % 16 * 0x100 + n / 16 % 16 * 16 + n % 16 == n
  {
    assert n / 0x100 == n / 16 / 16 && n / 0x1000 == n / 16 / 16 / 16;
  }

  lemma JsonEscapeStep(s: string)
    requires EscapedCode(s).Some? && IsScalarValue(EscapedCode(s).value) && |s| >= 6
    ensures JsonCodes(s) == Then(EscapedCode(s).value, JsonCodes(s[6..]))
  {
    hide Hex4;
  }

  lemma DecodeJsonChar(c: char, rest: string)
    ensures JsonCodes(JsonChar(c) + rest) == Then(c as int, JsonCodes(rest))
  {
    hide EscapeU;
    var s := JsonChar(c) + rest;
    if c < ' ' && JsonChar(c) == EscapeU(c as int) {
      DecodeEscape(c as int, rest);
    } else if JsonChar(c) == [c] {
      assert s[1..] == rest && s[0] == c;
    } else {
      assert s[2..] == rest && s[0] == '\\' && s[1] == JsonChar(c)[1];
    }
  }

  lemma DecodeChar(c: char, rest: string)
    ensures JsonCodes(QuotedChar(c) + rest) == Then(c as int, JsonCodes(rest))
  {
    hide QuotedChar, EscapeU, JsonCodes;
    QuotedCharCases(c);
    if c as int in {0x85, 0x2028, 0x2029} {
      DecodeEscape(c as int, rest);
    } else {
      DecodeJsonChar(c, rest);
    }
  }

  lemma {:induction false} BodyDecodes(s: string)
    ensures JsonCodes(Body(s) + "\"") == Some(Codes(s))
    decreases |s|
  {
    hide JsonCodes, Body, QuotedChar, StartsWith, MARK, Codes;
    BodyUnfolds(s);
    if s == [] {
      LoneQuote();
      assert Codes(s) == [];
      assert Body(s) + "\"" == "\"";
    } else if StartsWith(s, COMMENT) {
      var rest := Body(s[4..]) + "\"";
      BodyDecodes(s[4..]);
      DecodeMark(rest);
      assert Body(s) + "\"" == MARK + rest;
      assert s == COMMENT + s[4..] by { SplitComment(s); }
      assert Codes(s) == Codes(COMMENT) + Codes(s[4..]);
    } else {
      var rest := Body(s[1..]) + "\"";
      BodyDecodes(s[1..]);
      DecodeChar(s[0], rest);
      assert Body(s) + "\"" == QuotedChar(s[0]) + rest;
      assert Codes(s) == [s[0] as int] + Codes(s[1..]);
    }
  }

  lemma SplitComment(s: string)
    requires StartsWith(s, COMMENT)
    ensures s == COMMENT + s[4..]
  {
  }

  lemma LoneQuote()
    ensures JsonCodes("\"") == Some([])
  {
  }

  lemma DecodeSpace(rest: string)
    ensures JsonCodes(" " + rest) == Then(32, JsonCodes(rest))
  {
    assert (" " + rest)[1..] == rest;
  }

  lemma DecodeMark(rest: string)
    requires JsonCodes(rest).Some?
    ensures JsonCodes(MARK + rest) == Some(Codes(COMMENT) + JsonCodes(rest).value)
  {
    hide JsonCodes, EscapeU;
    var hash := EscapeU(0x23) + rest;
    DecodeEscape(0x23, rest);
    DecodeSpace(hash);
    DecodeSpace(" " + hash);
    DecodeSpace(" " + (" " + hash));
    assert MARK + rest == " " + (" " + (" " + hash));
    assert Codes(COMMENT) + JsonCodes(rest).value == [32] + ([32] + ([32] + ([0x23] + JsonCodes(rest).value)));
  }

  /** A text the JSON reader accepts has its first unescaped quote at the end. */
  lemma {:induction false} AcceptedClosesAtEnd(s: string, k: nat)
    requires k <= |s| && JsonCodes(s[k..]).Some?
    ensures ClosingDouble(s, k) == Some(|s| - 1)
    decreases |s| - k
  {
    var t := s[k..];
    if t[0] == '\"' {
    } else if t[0] != '\\' {
      assert t[1..] == s[k + 1..];
      AcceptedClosesAtEnd(s, k + 1);
    } else if t[1] != 'u' {
      assert t[2..] == s[k + 2..];
      AcceptedClosesAtEnd(s, k + 2);
    } else {
      EscapeHasNoQuote(s, k);
      assert t[6..] == s[k + 6..];
      AcceptedClosesAtEnd(s, k + 6);
    }
  }

  lemma EscapeHasNoQuote(s: string, k: nat)
    requires k <= |s| && EscapedCode(s[k..]).Some?
    ensures k + 6 <= |s| && ClosingDouble(s, k) == ClosingDouble(s, k + 6)
  {
    var t := s[k..];
    assert t[2..6] == s[k + 2..k + 6];
    assert ClosingDouble(s, k) == ClosingDouble(s, k + 2);
    var h := t[2..6];
    assert HexDigit(h[0]).Some? && HexDigit(h[1]).Some? && HexDigit(h[2]).Some? && HexDigit(h[3]).Some?;
    assert h[0] == s[k + 2] && h[1] == s[k + 3] && h[2] == s[k + 4] && h[3] == s[k + 5];
    assert ClosingDouble(s, k + 2) == ClosingDouble(s, k + 3);
    assert ClosingDouble(s, k + 3) == ClosingDouble(s, k + 4);
    assert ClosingDouble(s, k + 4) == ClosingDouble(s, k + 5);
  }

  // ---------------------------------------------------------------- the line survives the cuts

  lemma {:induction false} CutSpaceless(a: string, b: string)
    requires Spaceless(a)
    ensures BeforeComment(a + b) == a + BeforeComment(b)
  {
    hide StartsWith;
    if a == [] {
      assert a + b == b;
    } else {
      assert (a + b)[1..] == a[1..] + b && (a + b)[0] == a[0];
      NotComment(a + b, 0);
      CutSpaceless(a[1..], b);
      assert a == [a[0]] + a[1..];
    }
  }

  lemma CutMark(rest: string)
    ensures BeforeComment(MARK + rest) == MARK + BeforeComment(rest)
  {
    hide EscapeU, BeforeComment, StartsWith;
    var hash := EscapeU(0x23) + rest;
    EscapeShape(0x23);
    CutSpaceless(EscapeU(0x23), rest);
    NotComment(" " + hash, 1);
    CutSpace(hash);
    NotComment(" " + (" " + hash), 2);
    CutSpace(" " + hash);
    NotComment(" " + (" " + (" " + hash)), 3);
    CutSpace(" " + (" " + hash));
    assert MARK + rest == " " + (" " + (" " + hash));
    assert MARK + BeforeComment(rest) == " " + (" " + (" " + (EscapeU(0x23) + BeforeComment(rest))));
  }

  lemma NotComment(t: string, i: nat)
    requires i < 4 && i < |t| && t[i] != COMMENT[i]
    ensures !StartsWith(t, COMMENT)
  {
  }

  lemma CutSpace(rest: string)
    requires !StartsWith(" " + rest, COMMENT)
    ensures BeforeComment(" " + rest) == " " + BeforeComment(rest)
  {
    assert (" " + rest)[1..] == rest;
  }

  /** Blanks before a hash in the body are those of the value, up to two of them. */
  lemma {:induction false} PlainInBody(s: string, p: string)
    requires BlankOrHash(p) && p != [] && p[|p| - 1] == '#' && |p| <= 3
    requires StartsWith(Body(s) + "\"", p)
    ensures StartsWith(s, p)
  {
    hide StartsWith, Body, QuotedChar, MARK;
    var t := Body(s) + "\"";
    BodyUnfolds(s);
    Peel(s, p);
    Peel(t, p);
    if s == [] {
      assert false;
    } else if StartsWith(s, COMMENT) {
      MarkIsNoHash(s, p);
      assert false;
    } else {
      QuotedCharShape(s[0]);
      assert t[0] == QuotedChar(s[0])[0];
      assert s[0] == p[0];
      assert t[1..] == Body(s[1..]) + "\"";
      if |p| > 1 {
        PlainInBody(s[1..], p[1..]);
      } else {
        assert p[1..] == "";
        StartsWithNothing(s[1..]);
      }
    }
  }

  lemma MarkIsNoHash(s: string, p: string)
    requires p != [] && p[|p| - 1] == '#' && |p| <= 3 && StartsWith(s, COMMENT)
    ensures !StartsWith(Body(s) + "\"", p)
  {
    hide Body;
    BodyUnfolds(s);
    assert (Body(s) + "\"")[|p| - 1] == ' ';
  }

  predicate Breakless(s: string) {
    forall k :: 0 <= k < |s| ==> !IsBreak(s[k])
  }

  lemma QuotedCharShape(c: char)
    ensures QuotedChar(c) == [c] || (Spaceless(QuotedChar(c)) && QuotedChar(c) != [] && QuotedChar(c)[0] == '\\' && c != ' ' && c != '#')
    ensures Breakless(QuotedChar(c))
  {
    hide QuotedChar, EscapeU;
    QuotedCharCases(c);
    if c as int < 0x10000 {
      EscapeShape(c as int);
    }
  }

  lemma EscapeShape(n: nat)
    requires n < 0x10000
    ensures Spaceless(EscapeU(n)) && Breakless(EscapeU(n)) && EscapeU(n) != [] && EscapeU(n)[0] == '\\'
  {
  }

  lemma {:induction false} BodyUncut(s: string)
    ensures BeforeComment(Body(s) + "\"") == Body(s) + "\""
    decreases |s|
  {
    hide BeforeComment, Body, QuotedChar, StartsWith, MARK;
    BodyUnfolds(s);
    if s == [] {
      assert Body(s) + "\"" == "\"";
      CutSpaceless("\"", "");
      assert "\"" + "" == "\"";
      NothingToCut();
    } else if StartsWith(s, COMMENT) {
      var rest := Body(s[4..]) + "\"";
      BodyUncut(s[4..]);
      CutMark(rest);
      assert Body(s) + "\"" == MARK + rest;
    } else {
      var rest := Body(s[1..]) + "\"";
      BodyUncut(s[1..]);
      assert Body(s) + "\"" == QuotedChar(s[0]) + rest;
      QuotedCharShape(s[0]);
      if s[0] == ' ' {
        NoNewComment(s);
        CutSpace(rest);
      } else {
        CutSpaceless(QuotedChar(s[0]), rest);
      }
    }
  }

  lemma NothingToCut()
    ensures BeforeComment("") == ""
  {
  }

  lemma NoNewComment(s: string)
    requires s != [] && s[0] == ' ' && !StartsWith(s, COMMENT)
    ensures !StartsWith(" " + (Body(s[1..]) + "\""), COMMENT)
  {
    hide Body;
    var t := " " + (Body(s[1..]) + "\"");
    Peel(t, COMMENT);
    Peel(s, COMMENT);
    assert t[1..] == Body(s[1..]) + "\"";
    if StartsWith(t, COMMENT) {
      PlainInBody(s[1..], COMMENT[1..]);
    }
  }

  lemma {:induction false} BodyBreakless(s: string)
    ensures Breakless(Body(s))
    decreases |s|
  {
    hide Body, QuotedChar, StartsWith;
    BodyUnfolds(s);
    if s == [] {
    } else if StartsWith(s, COMMENT) {
      BodyBreakless(s[4..]);
      EscapeShape(0x23);
    } else {
      BodyBreakless(s[1..]);
      QuotedCharShape(s[0]);
    }
  }

  lemma TextOfCodes(s: string)
    ensures TextOf(Codes(s)) == Text(s)
  {
    assert forall k :: 0 <= k < |s| ==> IsScalarValue(Codes(s)[k]);
    assert TextOf(Codes(s)).text == s;
  }

  lemma ScalarOfQuoted(s: string)
    ensures ScalarOf(Quoted(s)) == Text(s) && DropQuotedComment(Quoted(s)) == Quoted(s)
  {
    hide Body, Quoted, JsonCodes, ClosingDouble, TextOf;
    QuotedIsBody(s);
    BodyDecodes(s);
    var q := Quoted(s);
    assert q[1..] == Body(s) + "\"";
    AcceptedClosesAtEnd(q, 1);
    TextOfCodes(s);
  }

  /** A quoted value written after `key:` reads back as itself. */
  lemma ValueOfQuoted(s: string)
    ensures ValueOf(" " + Quoted(s)) == Text(s)
  {
    hide Body, Quoted, BeforeComment, ScalarOf, DropQuotedComment;
    QuotedIsBody(s);
    BodyUncut(s);
    var q := Quoted(s);
    CutSpaceless("\"", Body(s) + "\"");
    assert q == "\"" + (Body(s) + "\"");
    NotComment(" " + q, 1);
    CutSpace(q);
    assert (" " + q)[1..] == q;
    assert StripStart(" " + q) == StripStart(q);
    assert Strip(" " + q) == q;
    ScalarOfQuoted(s);
  }

  // ---------------------------------------------------------------- whole files

  datatype KeyValue = KeyValue(key: string, value: string)

  predicate PlainKey(key: string) {
    && key != [] && ':' !in key && Breakless(key)
    && !IsSpace(key[0]) && !IsSpace(key[|key| - 1]) && key[0] != '-' && key[0] != '#'
  }

  function FieldLine(f: KeyValue): string {
    f.key + (":" + (" " + Quoted(f.value)))
  }

  lemma QuotedEnds(s: string)
    ensures |Quoted(s)| >= 2 && Quoted(s)[|Quoted(s)| - 1] == '\"' && Breakless(Quoted(s))
  {
    hide Body, Quoted;
    QuotedIsBody(s);
    BodyBreakless(s);
  }

  lemma StripBare(s: string)
    requires s != [] && !IsSpace(s[0]) && !IsSpace(s[|s| - 1])
    ensures Strip(s) == s && StripStart(s) == s
  {
  }

  lemma {:induction false} StripEndKeeps(s: string)
    requires s != [] && !IsSpace(s[0])
    ensures StripEnd(s) != []
  {
    if IsSpace(s[|s| - 1]) {
      StripEndKeeps(s[..|s| - 1]);
    }
  }

  /** A line that opens with a plain key is read as that key and whatever follows the colon. */
  lemma LineReads(key: string, raw: string, lenient: bool)
    requires PlainKey(key)
    ensures ReadLine(key + (":" + raw), lenient) == Field(key, ValueOf(raw))
  {
    hide ValueOf, Lex.Partition, StripEnd;
    var line := key + (":" + raw);
    assert line[|key|] == ':';
    assert StripStart(line) == line;
    StripEndKeeps(line);
    StripBare(key);
    Lex.PartitionAt(':', key, Some(raw));
  }

  /** The line written for a field is one line and reads back as that field. */
  lemma FieldLineReads(f: KeyValue, lenient: bool)
    requires PlainKey(f.key)
    ensures ReadLine(FieldLine(f), lenient) == Field(f.key, Text(f.value))
    ensures FieldLine(f) != [] && FieldLine(f)[0] == f.key[0] && Breakless(FieldLine(f))
  {
    hide Quoted, ValueOf, ReadLine;
    QuotedEnds(f.value);
    LineReads(f.key, " " + Quoted(f.value), lenient);
    ValueOfQuoted(f.value);
  }

  function JoinLines(lines: seq<string>): string
    requires lines != []
  {
    if |lines| == 1 then lines[0] else lines[0] + ("\n" + JoinLines(lines[1..]))
  }

  /** Lines that stay inside their block: none is empty, holds a newline or opens with a dash. */
  predicate BlockLines(lines: seq<string>) {
    forall k :: 0 <= k < |lines| ==> lines[k] != [] && '\n' !in lines[k] && lines[k][0] != '-'
  }

  predicate PlainLines(lines: seq<string>) {
    forall k :: 0 <= k < |lines| ==> lines[k] != [] && Breakless(lines[k]) && lines[k][0] != '-'
  }

  lemma {:induction false} LineLengthAt(a: string, b: string)
    requires Breakless(a) && (b == [] || IsBreak(b[0]))
    ensures LineLength(a + b) == |a|
  {
    if a == [] {
      assert a + b == b;
    } else {
      assert (a + b)[1..] == a[1..] + b;
      LineLengthAt(a[1..], b);
    }
  }

  lemma SplitLast(a: string)
    requires a != [] && Breakless(a)
    ensures SplitLines(a) == [a]
  {
    LineLengthAt(a, "");
    assert a + "" == a;
  }

  lemma SplitOff(s: string)
    requires LineLength(s) < |s|
    ensures var n := LineLength(s); SplitLines(s) == [s[..n]] + SplitLines(s[n + BreakLength(s, n)..])
  {
    hide LineLength;
  }

  lemma SplitFirst(a: string, c: char, rest: string)
    requires a != [] && Breakless(a) && IsBreak(c) && c != '\r'
    ensures SplitLines(a + ([c] + rest)) == [a] + SplitLines(rest)
  {
    hide LineLength, IsBreak, Breakless, SplitLines;
    var s := a + ([c] + rest);
    LineLengthAt(a, [c] + rest);
    assert s[|a|] == c;
    assert s[..|a|] == a;
    assert s[|a| + 1..] == rest;
    SplitOff(s);
  }

  lemma {:induction false} SplitJoined(lines: seq<string>)
    requires lines != [] && PlainLines(lines)
    ensures SplitLines(JoinLines(lines)) == lines
  {
    hide SplitLines, Breakless;
    if |lines| == 1 {
      SplitLast(lines[0]);
      assert lines == [lines[0]];
    } else {
      NewlineBreaks();
      SplitFirst(lines[0], '\n', JoinLines(lines[1..]));
      SplitJoined(lines[1..]);
      assert lines == [lines[0]] + lines[1..];
    }
  }

  lemma NewlineBreaks()
    ensures IsBreak('\n')
  {
  }

  lemma {:induction false} BlockSkips(a: string, b: string)
    requires '\n' !in a
    ensures BlockLength(a + b) == if BlockLength(b).None? then None else Some(|a| + BlockLength(b).value)
  {
    if a == [] {
      assert a + b == b;
    } else {
      assert (a + b)[1..] == a[1..] + b && (a + b)[0] != '\n';
      BlockSkips(a[1..], b);
    }
  }

  lemma NoNewline(a: string)
    requires Breakless(a)
    ensures '\n' !in a
  {
  }

  lemma BlockNewline(b: string)
    requires b != [] && b[0] != '-'
    ensures BlockLength("\n" + b) == if BlockLength(b).None? then None else Some(1 + BlockLength(b).value)
  {
    assert ("\n" + b)[1..] == b;
  }

  lemma BlockCloses(rest: string)
    requires rest == [] || rest[0] == '\n'
    ensures BlockLength(CLOSING + rest) == Some(0)
  {
  }

  lemma {:induction false} BlockOfLines(lines: seq<string>, rest: string)
    requires lines != [] && BlockLines(lines) && (rest == [] || rest[0] == '\n')
    ensures BlockLength(JoinLines(lines) + (CLOSING + rest)) == Some(|JoinLines(lines)|)
  {
    hide BlockLength, IsBreak;
    var a, end := lines[0], CLOSING + rest;
    if |lines| == 1 {
      BlockCloses(rest);
      BlockSkips(a, end);
    } else {
      var more := JoinLines(lines[1..]);
      BlockOfLines(lines[1..], rest);
      assert more[0] == lines[1][0];
      BlockNewline(more + end);
      BlockSkips(a, "\n" + (more + end));
      assert JoinLines(lines) + end == a + ("\n" + (more + end));
    }
  }

  lemma BlockOfFile(lines: seq<string>, rest: string)
    requires lines != [] && BlockLines(lines) && (rest == [] || rest[0] == '\n')
    ensures Block(OPENING + (JoinLines(lines) + (CLOSING + rest))) == Some(JoinLines(lines))
  {
    hide BlockLength, JoinLines, BlockLines;
    var block := JoinLines(lines);
    var inner := block + (CLOSING + rest);
    var text := OPENING + inner;
    BlockOfLines(lines, rest);
    assert text[4..] == inner && inner[..|block|] == block;
    assert StartsWith(text, OPENING);
  }

  function FieldLines(fields: seq<KeyValue>): (r: seq<string>)
    ensures |r| == |fields| && forall k :: 0 <= k < |r| ==> r[k] == FieldLine(fields[k])
  {
    seq(|fields|, k requires 0 <= k < |fields| => FieldLine(fields[k]))
  }

  /** What the fields mean: a later field replaces an earlier one of the same key. */
  function Meaning(fields: seq<KeyValue>): map<string, Scalar> {
    if fields == [] then map[]
    else Meaning(fields[..|fields| - 1])[fields[|fields| - 1].key := Text(fields[|fields| - 1].value)]
  }

  lemma {:induction false} FieldLinesRead(fields: seq<KeyValue>, lenient: bool)
    requires forall f <- fields :: PlainKey(f.key)
    ensures ReadLines(FieldLines(fields), lenient) == Fields(Meaning(fields))
  {
    hide ReadLine, FieldLine, PlainKey;
    if fields != [] {
      var n := |fields| - 1;
      FieldLinesRead(fields[..n], lenient);
      FieldLineReads(fields[n], lenient);
      assert FieldLines(fields)[..n] == FieldLines(fields[..n]);
    }
  }

  /** A file whose frontmatter holds quoted fields reads back, strictly or leniently, as exactly those values. */
  lemma QuotingRoundTrip(fields: seq<KeyValue>, rest: string, lenient: bool)
    requires fields != [] && (forall f <- fields :: PlainKey(f.key)) && (rest == [] || rest[0] == '\n')
    ensures Parse(OPENING + (JoinLines(FieldLines(fields)) + (CLOSING + rest)), lenient) == Fields(Meaning(fields))
  {
    hide ReadLines, SplitLines, BlockLength, FieldLine, JoinLines, PlainKey, Breakless;
    var lines := FieldLines(fields);
    forall k | 0 <= k < |lines| ensures lines[k] != [] && Breakless(lines[k]) && '\n' !in lines[k] && lines[k][0] != '-' {
      FieldLineReads(fields[k], lenient);
      NoNewline(lines[k]);
      KeyStarts(fields[k].key);
    }
    BlockOfFile(lines, rest);
    SplitJoined(lines);
    FieldLinesRead(fields, lenient);
  }

  lemma KeyStarts(key: string)
    requires PlainKey(key)
    ensures key != [] && key[0] != '-'
  {
  }
}
