/** Ticket frontmatter: how a value is quoted into it and how its lines are read back. */
module Frontmatter {
  import opened Domain
  import Lex

  /** What a frontmatter value parses to; text with an unpaired surrogate stays a list of code points. */
  datatype Scalar =
    | Text(text: string)
    | Unpaired(codes: seq<int>)
    | Flag(flag: bool)
    | Number(number: int)
    | List(items: seq<Scalar>)

  datatype Parsed = Fields(fields: map<string, Scalar>) | RefusedList

  // ---------------------------------------------------------------- characters

  predicate IsSpace(c: char) {
    var n := c as int;
    || 9 <= n <= 13 || 0x1C <= n <= 0x20 || n == 0x85 || n == 0xA0 || n == 0x1680 || 0x2000 <= n <= 0x200A
    || n == 0x2028 || n == 0x2029 || n == 0x202F || n == 0x205F || n == 0x3000
  }

  /** The characters `splitlines` splits at. */
  predicate IsBreak(c: char) {
    var n := c as int;
    10 <= n <= 13 || 0x1C <= n <= 0x1E || n == 0x85 || n == 0x2028 || n == 0x2029
  }

  predicate StartsWith(s: string, prefix: string)
    ensures StartsWith(s, prefix) ==> |prefix| <= |s|
  {
    prefix <= s
  }

  function StripStart(s: string): (r: string)
    ensures |r| <= |s|
  {
    if s != [] && IsSpace(s[0]) then StripStart(s[1..]) else s
  }

  function StripEnd(s: string): (r: string)
    ensures |r| <= |s|
  {
    if s != [] && IsSpace(s[|s| - 1]) then StripEnd(s[..|s| - 1]) else s
  }

  function Strip(s: string): (r: string)
    ensures |r| <= |s|
  {
    StripEnd(StripStart(s))
  }

  function HexChar(d: nat): char
    requires d < 16
  {
    if d < 10 then '0' + d as char else 'a' + (d - 10) as char
  }

  function HexDigit(c: char): Option<nat> {
    if '0' <= c <= '9' then Some((c - '0') as nat)
    else if 'a' <= c <= 'f' then Some((c - 'a') as nat + 10)
    else if 'A' <= c <= 'F' then Some((c - 'A') as nat + 10)
    else None
  }

  // ---------------------------------------------------------------- quoting

  function EscapeU(n: nat): string
    requires n < 0x10000
  {
    ['\\', 'u', HexChar(n / 0x1000), HexChar(n / 0x100 % 16), HexChar(n / 16 % 16), HexChar(n % 16)]
  }

  /** One character as `json.dumps` writes it with `ensure_ascii=False`. */
  function JsonChar(c: char): string {
    if c == '\"' then ['\\', '\"']
    else if c == '\\' then ['\\', '\\']
    else if c == '\n' then ['\\', 'n']
    else if c == '\r' then ['\\', 'r']
    else if c == '\t' then ['\\', 't']
    else if c as int == 8 then ['\\', 'b']
    else if c as int == 12 then ['\\', 'f']
    else if c < ' ' then EscapeU(c as int)
    else [c]
  }

  function JsonChars(s: string): string {
    if s == [] then "" else JsonChar(s[0]) + JsonChars(s[1..])
  }

  function JsonDumps(s: string): string {
    "\"" + JsonChars(s) + "\""
  }

  const COMMENT: string := [' ', ' ', ' ', '#']

  function ReplaceComments(s: string): string {
    if s == [] then ""
    else if StartsWith(s, COMMENT) then "   " + EscapeU(0x23) + ReplaceComments(s[4..])
    else [s[0]] + ReplaceComments(s[1..])
  }

  function TranslateChar(c: char): string {
    if c as int in {0x85, 0x2028, 0x2029} then EscapeU(c as int) else [c]
  }

  function Translate(s: string): string {
    if s == [] then "" else TranslateChar(s[0]) + Translate(s[1..])
  }

  function Quoted(value: string): string {
    Translate(ReplaceComments(JsonDumps(value)))
  }

  // ---------------------------------------------------------------- reading a value

  function BeforeComment(s: string): (r: string) {
    if s == [] || StartsWith(s, COMMENT) then "" else [s[0]] + BeforeComment(s[1..])
  }

  function Hex4(s: string): Option<nat>
    requires |s| >= 4
  {
    var a, b, c, d := HexDigit(s[0]), HexDigit(s[1]), HexDigit(s[2]), HexDigit(s[3]);
    if a.None? || b.None? || c.None? || d.None? then None
    else Some(a.value * 0x1000 + b.value * 0x100 + c.value * 16 + d.value)
  }

  function Unescape(c: char): Option<int> {
    match c
    case '\"' => Some('\"' as int)
    case '\\' => Some('\\' as int)
    case '/' => Some('/' as int)
    case 'n' => Some(10)
    case 'r' => Some(13)
    case 't' => Some(9)
    case 'b' => Some(8)
    case 'f' => Some(12)
    case _ => None
  }

  function Then(code: int, rest: Option<seq<int>>): Option<seq<int>> {
    if rest.None? then None else Some([code] + rest.value)
  }

  /** A `\uXXXX` escape at the front of `s`. */
  function EscapedCode(s: string): Option<nat> {
    if |s| >= 6 && s[0] == '\\' && s[1] == 'u' then Hex4(s[2..6]) else None
  }

  /** The code points of a JSON string whose opening quote has been read and which must close at the very end. */
  function JsonCodes(s: string): Option<seq<int>> {
    if s == [] then None
    else if s[0] == '\"' then (if |s| == 1 then Some([]) else None)
    else if s[0] < ' ' then None
    else if s[0] != '\\' then Then(s[0] as int, JsonCodes(s[1..]))
    else if |s| < 2 then None
    else if s[1] != 'u' then
      var code := Unescape(s[1]);
      if code.None? then None else Then(code.value, JsonCodes(s[2..]))
    else
      var code := EscapedCode(s);
      if code.None? then None
      else
        var high := code.value;
        var low := EscapedCode(s[6..]);
        if 0xD800 <= high < 0xDC00 && low.Some? && 0xDC00 <= low.value < 0xE000 then
          Then(0x10000 + (high - 0xD800) * 0x400 + (low.value - 0xDC00), JsonCodes(s[12..]))
        else Then(high, JsonCodes(s[6..]))
  }

  predicate IsScalarValue(n: int) { 0 <= n < 0xD800 || 0xE000 <= n < 0x110000 }

  function TextOf(codes: seq<int>): Scalar {
    if forall k :: 0 <= k < |codes| ==> IsScalarValue(codes[k])
    then Text(seq(|codes|, k requires 0 <= k < |codes| && IsScalarValue(codes[k]) => codes[k] as char))
    else Unpaired(codes)
  }

  function HalveQuotes(s: string): string {
    if |s| < 2 then s
    else if s[0] == '\'' && s[1] == '\'' then ['\''] + HalveQuotes(s[2..])
    else [s[0]] + HalveQuotes(s[1..])
  }

  predicate IsInteger(s: string) {
    var digits := if s != [] && s[0] == '-' then s[1..] else s;
    digits != [] && forall k :: 0 <= k < |digits| ==> '0' <= digits[k] <= '9'
  }

  function Magnitude(digits: string): nat {
    if digits == [] then 0
    else
      var n := |digits| - 1;
      10 * Magnitude(digits[..n]) + (if '0' <= digits[n] <= '9' then (digits[n] - '0') as nat else 0)
  }

  function ScalarOf(value: string): Scalar
    decreases |value|, 0
  {
    var n := |value|;
    if n >= 2 && value[0] == '[' && value[n - 1] == ']' then
      var inner := Strip(value[1..n - 1]);
      if inner == [] then List([]) else List(Items(inner))
    else if n >= 2 && value[0] == value[n - 1] && value[0] == '\"' then
      var codes := JsonCodes(value[1..]);
      if codes.Some? then TextOf(codes.value) else Text(value[1..n - 1])
    else if n >= 2 && value[0] == value[n - 1] && value[0] == '\'' then Text(HalveQuotes(value[1..n - 1]))
    else if value == "true" || value == "false" then Flag(value == "true")
    else if IsInteger(value) then
      if value[0] == '-' then Number(0 - Magnitude(value[1..]) as int) else Number(Magnitude(value))
    else Text(value)
  }

  function Items(inner: string): seq<Scalar>
    decreases |inner|, 1
  {
    var (head, tail) := Lex.Partition(',', inner);
    [ScalarOf(Strip(head))] + (if tail.None? then [] else Items(tail.value))
  }

  /** The index of the quote that closes a double-quoted scalar, scanning from `k`. */
  function ClosingDouble(s: string, k: nat): (r: Option<nat>)
    requires k <= |s|
    ensures r.Some? ==> k <= r.value < |s|
    decreases |s| - k
  {
    if k == |s| then None
    else if s[k] == '\"' then Some(k)
    else if s[k] != '\\' then ClosingDouble(s, k + 1)
    else if k + 1 < |s| then ClosingDouble(s, k + 2)
    else None
  }

  /** The index of the quote that closes a single-quoted scalar: the first that is not doubled. */
  function ClosingSingle(s: string, k: nat): (r: Option<nat>)
    requires k <= |s|
    ensures r.Some? ==> k <= r.value < |s|
    decreases |s| - k
  {
    if k == |s| then None
    else if s[k] != '\'' then ClosingSingle(s, k + 1)
    else if k + 1 < |s| && s[k + 1] == '\'' then ClosingSingle(s, k + 2)
    else Some(k)
  }

  /** `\s+#.*` */
  predicate IsTrailingComment(s: string) {
    s != [] && IsSpace(s[0]) && StartsWith(StripStart(s), "#")
  }

  /** A quoted scalar followed by a comment, without the comment. */
  function DropQuotedComment(value: string): string {
    if value == [] then value
    else
      var closing :=
        if value[0] == '\"' then ClosingDouble(value, 1)
        else if value[0] == '\'' then ClosingSingle(value, 1)
        else None;
      if closing.Some? && IsTrailingComment(value[closing.value + 1..]) then value[..closing.value + 1] else value
  }

  function ValueOf(raw: string): Scalar {
    ScalarOf(DropQuotedComment(Strip(BeforeComment(raw))))
  }

  // ---------------------------------------------------------------- reading the block

  datatype LineReading = Skipped | Refused | Field(key: string, value: Scalar)

  function ReadLine(line: string, lenient: bool): LineReading {
    if lenient && ((line != [] && IsSpace(line[0])) || StartsWith(line, "- ")) then Skipped
    else if StartsWith(StripStart(line), "- ") then Refused
    else if Strip(line) == [] || StartsWith(StripStart(line), "#") || ':' !in line then Skipped
    else
      var (key, value) := Lex.Partition(':', line);
      Field(Strip(key), ValueOf(if value.None? then "" else value.value))
  }

  function ReadLines(lines: seq<string>, lenient: bool): Parsed {
    if lines == [] then Fields(map[])
    else
      var n := |lines| - 1;
      var before := ReadLines(lines[..n], lenient);
      if before.RefusedList? then RefusedList
      else
        match ReadLine(lines[n], lenient)
        case Skipped => before
        case Refused => RefusedList
        case Field(key, value) => Fields(before.fields[key := value])
  }

  function LineLength(s: string): (r: nat)
    ensures r <= |s|
  {
    if s == [] || IsBreak(s[0]) then 0 else 1 + LineLength(s[1..])
  }

  /** The length of the break at `n`: a carriage return and its newline are one. */
  function BreakLength(s: string, n: nat): (r: nat)
    requires n < |s|
    ensures 1 <= r <= |s| - n
  {
    if s[n] == '\r' && n + 1 < |s| && s[n + 1] == '\n' then 2 else 1
  }

  function SplitLines(s: string): seq<string>
    decreases |s|
  {
    if s == [] then []
    else
      var n := LineLength(s);
      if n == |s| then [s]
      else
        [s[..n]] + SplitLines(s[n + BreakLength(s, n)..])
  }

  const OPENING: string := ['-', '-', '-', '\n']
  const CLOSING: string := ['\n', '-', '-', '-']

  predicate ClosesAt(s: string) {
    StartsWith(s, CLOSING) && (|s| == 4 || s[4] == '\n')
  }

  /** The shortest block that ends where the closing rule stands. */
  function BlockLength(s: string): (r: Option<nat>)
    ensures r.Some? ==> r.value <= |s|
  {
    if s == [] then None
    else if ClosesAt(s) then Some(0)
    else
      var later := BlockLength(s[1..]);
      if later.None? then None else Some(later.value + 1)
  }

  function Block(text: string): Option<string> {
    if !StartsWith(text, OPENING) then None
    else
      var n := BlockLength(text[4..]);
      if n.None? then None else Some(text[4..][..n.value])
  }

  function Parse(text: string, lenient: bool): Parsed {
    var block := Block(text);
    if block.None? then Fields(map[]) else ReadLines(SplitLines(block.value), lenient)
  }

  method ParseFrontmatter(text: string, lenient: bool) returns (r: Parsed)
    ensures r == Parse(text, lenient)
  {
    hide ReadLine, SplitLines, Block;
    var block := Block(text);
    if block.None? {
      return Fields(map[]);
    }
    var lines := SplitLines(block.value);
    var data: map<string, Scalar> := map[];
    for i := 0 to |lines|
      invariant ReadLines(lines[..i], lenient) == Fields(data)
    {
      assert lines[..i + 1][..i] == lines[..i];
      var reading := ReadLine(lines[i], lenient);
      match reading {
        case Skipped =>
        case Refused =>
          RefusalStays(lines, i + 1, lenient);
          return RefusedList;
        case Field(key, value) =>
          data := data[key := value];
      }
    }
    assert lines[..|lines|] == lines;
    return Fields(data);
  }

  lemma {:induction false} RefusalStays(lines: seq<string>, n: nat, lenient: bool)
    requires n <= |lines| && ReadLines(lines[..n], lenient).RefusedList?
    ensures ReadLines(lines, lenient).RefusedList?
  {
    hide ReadLine;
    if n == |lines| {
      assert lines[..n] == lines;
    } else {
      var m := |lines| - 1;
      assert lines[..m][..n] == lines[..n];
      RefusalStays(lines[..m], n, lenient);
    }
  }
}
