/** Titles a pulled ticket writes with plain `json.dumps`: exactly which of them the frontmatter reader gives back. */
module Titles {
  import opened Frontmatter
  import opened Quoting
  import opened Dumps
  import Lex

  // ---------------------------------------------------------------- the file

  function DumpedLine(key: string, s: string): string {
    key + (":" + (" " + JsonDumps(s)))
  }

  /** A file whose frontmatter holds that line between others. */
  function DumpedFile(pre: seq<string>, key: string, s: string, post: seq<string>, rest: string): string {
    OPENING + (JoinLines(pre + [DumpedLine(key, s)] + post) + (CLOSING + rest))
  }

  /** Lines that another field could write: each stays one line, is not refused and sets another key. */
  predicate Others(lines: seq<string>, key: string, lenient: bool) {
    forall k :: 0 <= k < |lines| ==>
      lines[k] != [] && Breakless(lines[k]) && lines[k][0] != '-' && IsOther(ReadLine(lines[k], lenient), key)
  }

  predicate IsOther(reading: LineReading, key: string) {
    reading.Skipped? || (reading.Field? && reading.key != key)
  }

  /** The reader gives the value under the key. */
  predicate Has(r: Parsed, key: string, value: Scalar) {
    r.Fields? && key in r.fields && r.fields[key] == value
  }

  /** The reader gives back the text under the key. */
  predicate Gives(r: Parsed, key: string, s: string) {
    Has(r, key, Text(s))
  }

  /** The line breaks that `json.dumps` leaves as they are. */
  predicate IsRawBreak(c: char) {
    c as int in {0x85, 0x2028, 0x2029}
  }

  predicate Unbroken(s: string) {
    forall k :: 0 <= k < |s| ==> !IsRawBreak(s[k])
  }

  lemma JsonCharBreaks(c: char)
    ensures IsRawBreak(c) ==> JsonChar(c) == [c] && IsBreak(c) && c != '\r'
    ensures !IsRawBreak(c) ==> Breakless(JsonChar(c))
    ensures '\n' !in JsonChar(c)
  {
    if c < ' ' {
      EscapeShape(c as int);
    }
  }

  lemma {:induction false} DumpBreaks(s: string)
    ensures Unbroken(s) ==> Breakless(JsonChars(s))
    ensures '\n' !in JsonChars(s)
  {
    hide JsonChar, IsBreak, IsRawBreak;
    if s != [] {
      JsonCharBreaks(s[0]);
      DumpBreaks(s[1..]);
    }
  }

  lemma KeyHasNoNewline(key: string)
    requires PlainKey(key)
    ensures '\n' !in key
  {
    NewlineBreaks();
  }

  lemma DumpedLineEnds(key: string, s: string)
    requires PlainKey(key)
    ensures var line := DumpedLine(key, s);
            line != [] && '\n' !in line && line[0] != '-' && !IsBreak(line[|line| - 1])
  {
    hide JsonChars;
    KeyHasNoNewline(key);
    DumpBreaks(s);
    assert DumpedLine(key, s)[0] == key[0];
  }

  /** Splitting a block at its newlines first, and each piece after. */
  lemma {:induction false} SplitAcross(x: string, y: string)
    requires x != [] && !IsBreak(x[|x| - 1])
    ensures SplitLines(x + ("\n" + y)) == SplitLines(x) + SplitLines(y)
    decreases |x|
  {
    hide LineLength, IsBreak, SplitLines, Breakless;
    var n := LineLength(x);
    LineBreakless(x);
    LineStops(x);
    NewlineBreaks();
    if n == |x| {
      assert x[..n] == x;
      SplitFirst(x, '\n', y);
      SplitLast(x);
    } else {
      var whole, m := x + ("\n" + y), n + BreakLength(x, n);
      LineLengthAt(x[..n], whole[n..]);
      assert x[..n] + whole[n..] == whole;
      assert m < |x|;
      assert BreakLength(whole, n) == BreakLength(x, n);
      assert whole[m..] == x[m..] + ("\n" + y) && whole[..n] == x[..n];
      SplitAcross(x[m..], y);
      SplitOff(whole);
      SplitOff(x);
      assert [x[..n]] + (SplitLines(x[m..]) + SplitLines(y)) == [x[..n]] + SplitLines(x[m..]) + SplitLines(y);
    }
  }

  lemma {:induction false} SplitAround(pre: seq<string>, line: string, post: seq<string>)
    requires line != [] && !IsBreak(line[|line| - 1]) && PlainLines(pre) && PlainLines(post)
    ensures SplitLines(JoinLines(pre + [line] + post)) == pre + SplitLines(line) + post
  {
    hide SplitLines, Breakless, IsBreak;
    var all := pre + [line] + post;
    if pre != [] {
      assert all[1..] == pre[1..] + [line] + post && all[0] == pre[0] && pre[0] in pre;
      NewlineBreaks();
      SplitFirst(pre[0], '\n', JoinLines(all[1..]));
      SplitAround(pre[1..], line, post);
      assert [pre[0]] + (pre[1..] + SplitLines(line) + post) == pre + SplitLines(line) + post;
    } else if post == [] {
      assert all == [line];
      assert pre + SplitLines(line) + post == SplitLines(line);
    } else {
      assert all[0] == line && all[1..] == post;
      SplitAcross(line, JoinLines(post));
      SplitJoined(post);
      assert pre + SplitLines(line) + post == SplitLines(line) + post;
    }
  }

  /** The lines the reader sees: the others as they are, and whatever the title's line splits into. */
  lemma DumpedLines(pre: seq<string>, key: string, s: string, post: seq<string>, rest: string, lenient: bool)
    requires PlainKey(key) && (rest == [] || rest[0] == '\n') && Others(pre, key, lenient) && Others(post, key, lenient)
    ensures Parse(DumpedFile(pre, key, s, post, rest), lenient) ==
            ReadLines(pre + SplitLines(DumpedLine(key, s)) + post, lenient)
  {
    hide ReadLine, ReadLines, SplitLines, Block, JoinLines, PlainKey, DumpedLine, Breakless, IsBreak;
    var line := DumpedLine(key, s);
    var all := pre + [line] + post;
    DumpedLineEnds(key, s);
    forall k | 0 <= k < |all| ensures all[k] != [] && '\n' !in all[k] && all[k][0] != '-' {
      if k < |pre| {
        NoNewline(pre[k]);
      } else if k > |pre| {
        NoNewline(post[k - |pre| - 1]);
      }
    }
    BlockOfFile(all, rest);
    SplitAround(pre, line, post);
  }

  // ---------------------------------------------------------------- a title on one line

  lemma {:induction false} OthersRead(lines: seq<string>, key: string, lenient: bool)
    requires Others(lines, key, lenient)
    ensures var r := ReadLines(lines, lenient); r.Fields? && key !in r.fields
  {
    hide ReadLine, Breakless;
    if lines != [] {
      OthersRead(lines[..|lines| - 1], key, lenient);
      assert lines[|lines| - 1] in lines;
    }
  }

  lemma {:induction false} OthersAfter(lines: seq<string>, more: seq<string>, key: string, value: Scalar, lenient: bool)
    requires Others(more, key, lenient)
    ensures Has(ReadLines(lines + more, lenient), key, value) <==> Has(ReadLines(lines, lenient), key, value)
  {
    hide ReadLine, Breakless;
    if more == [] {
      assert lines + more == lines;
    } else {
      var n := |more| - 1;
      OthersAfter(lines, more[..n], key, value, lenient);
      assert more[n] in more;
      assert (lines + more)[..|lines| + n] == lines + more[..n] && (lines + more)[|lines| + n] == more[n];
    }
  }

  /** A line of the file that stays one line gives its key the value read from it, whatever the other fields. */
  lemma FieldReads(pre: seq<string>, key: string, raw: string, post: seq<string>, rest: string, lenient: bool)
    requires PlainKey(key) && (rest == [] || rest[0] == '\n') && Others(pre, key, lenient) && Others(post, key, lenient)
    requires Breakless(raw)
    ensures Has(Parse(OPENING + (JoinLines(pre + [key + (":" + raw)] + post) + (CLOSING + rest)), lenient), key, ValueOf(raw))
  {
    hide ValueOf, ReadLine, SplitLines, IsBreak, Block, JoinLines;
    var line := key + (":" + raw);
    QuoteIsNoBreak();
    assert Breakless(line) && line[0] == key[0];
    NoNewline(line);
    var all := pre + [line] + post;
    forall k | 0 <= k < |all| ensures all[k] != [] && '\n' !in all[k] && all[k][0] != '-' {
      if k < |pre| {
        NoNewline(pre[k]);
      } else if k > |pre| {
        NoNewline(post[k - |pre| - 1]);
      }
    }
    BlockOfFile(all, rest);
    SplitAround(pre, line, post);
    SplitLast(line);
    LineReads(key, raw, lenient);
    hide Others, PlainKey, Breakless;
    OthersRead(pre, key, lenient);
    assert (pre + [line])[..|pre|] == pre;
    OthersAfter(pre + [line], post, key, ValueOf(raw), lenient);
  }

  /** Without raw breaks the title is one line. */
  lemma UnbrokenReads(pre: seq<string>, key: string, s: string, post: seq<string>, rest: string, lenient: bool, text: string)
    requires PlainKey(key) && (rest == [] || rest[0] == '\n') && Others(pre, key, lenient) && Others(post, key, lenient)
    requires Unbroken(s)
    ensures Gives(Parse(DumpedFile(pre, key, s, post, rest), lenient), key, text) <==> ValueOf(" " + JsonDumps(s)) == Text(text)
  {
    hide ValueOf, ReadLine, SplitLines, JsonChars, IsBreak, Unbroken, Parse, DumpedFile, Others;
    var line := DumpedLine(key, s);
    DumpedLines(pre, key, s, post, rest, lenient);
    DumpBreaks(s);
    QuoteIsNoBreak();
    assert Breakless(line);
    SplitLast(line);
    LineReads(key, " " + JsonDumps(s), lenient);
    OthersRead(pre, key, lenient);
    assert (pre + [line])[..|pre|] == pre;
    OthersAfter(pre + [line], post, key, Text(text), lenient);
  }

  lemma QuoteIsNoBreak()
    ensures !IsBreak('\"') && !IsBreak(' ') && !IsBreak(':')
  {
  }

  // ---------------------------------------------------------------- a title cut into lines

  /** Every quote ends the text or follows a backslash. */
  predicate Guarded(s: string) {
    forall i :: 0 <= i < |s| ==> GuardedAt(s, i)
  }

  predicate GuardedAt(s: string, i: nat)
    requires i < |s|
  {
    s[i] == '\"' ==> i == |s| - 1 || (i > 0 && s[i - 1] == '\\')
  }

  lemma GuardedPrefix(s: string, t: string)
    requires Guarded(s) && t <= s
    ensures Guarded(t)
  {
    forall i | 0 <= i < |t| ensures GuardedAt(t, i) {
      assert GuardedAt(s, i);
    }
  }

  lemma GuardedSuffix(s: string, k: nat)
    requires Guarded(s) && 0 < k <= |s| && s[k - 1] != '\\'
    ensures Guarded(s[k..])
  {
    var t := s[k..];
    forall i | 0 <= i < |t| ensures GuardedAt(t, i) {
      assert GuardedAt(s, k + i);
    }
  }

  lemma JsonCharGuarded(c: char, i: nat)
    requires i < |JsonChar(c)| && JsonChar(c)[i] == '\"'
    ensures i > 0 && JsonChar(c)[i - 1] == '\\'
  {
  }

  lemma {:induction false} DumpGuarded(s: string)
    ensures Guarded(JsonChars(s) + "\"")
  {
    hide JsonChar;
    if s != [] {
      var a, b := JsonChar(s[0]), JsonChars(s[1..]) + "\"";
      DumpGuarded(s[1..]);
      assert JsonChars(s) + "\"" == a + b;
      forall i | 0 <= i < |a + b| ensures GuardedAt(a + b, i) {
        if i >= |a| {
          assert GuardedAt(b, i - |a|);
        } else if a[i] == '\"' {
          JsonCharGuarded(s[0], i);
        }
      }
    }
  }

  /** The line sets the key to no text with a line break in it. */
  ghost predicate Tame(line: string, key: string, lenient: bool) {
    forall text :: ReadLine(line, lenient) == Field(key, Text(text)) ==> Breakless(text)
  }

  lemma {:induction false} HalveBreakless(s: string)
    requires Breakless(s)
    ensures Breakless(HalveQuotes(s))
    decreases |s|
  {
    hide IsBreak;
    if |s| >= 2 {
      if s[0] == '\'' && s[1] == '\'' {
        HalveBreakless(s[2..]);
      } else {
        HalveBreakless(s[1..]);
      }
    }
  }

  lemma GuardedStart(v: string)
    requires Guarded(v) && |v| >= 2
    ensures v[0] != '\"'
  {
    assert GuardedAt(v, 0);
  }

  lemma GuardedScalar(v: string)
    requires Guarded(v) && Breakless(v) && ScalarOf(v).Text?
    ensures Breakless(ScalarOf(v).text)
  {
    hide IsBreak, JsonCodes, IsInteger, Items, Strip, HalveQuotes, Magnitude;
    if |v| >= 2 {
      GuardedStart(v);
      HalveBreakless(v[1..|v| - 1]);
    }
  }

  lemma {:induction false} StripStartKeeps(s: string)
    requires Guarded(s) && Breakless(s)
    ensures Guarded(StripStart(s)) && Breakless(StripStart(s))
  {
    hide IsBreak;
    if s != [] && IsSpace(s[0]) {
      GuardedSuffix(s, 1);
      StripStartKeeps(s[1..]);
    }
  }

  lemma {:induction false} StripEndPrefix(s: string)
    ensures StripEnd(s) <= s
  {
    if s != [] && IsSpace(s[|s| - 1]) {
      StripEndPrefix(s[..|s| - 1]);
    }
  }

  lemma BreaklessPrefix(s: string, t: string)
    requires Breakless(s) && t <= s
    ensures Breakless(t)
  {
  }

  lemma GuardedValue(raw: string)
    requires Guarded(raw) && Breakless(raw) && ValueOf(raw).Text?
    ensures Breakless(ValueOf(raw).text)
  {
    hide Guarded, Breakless, BeforeComment, StripStart, StripEnd, ScalarOf, ClosingDouble, ClosingSingle;
    var a := BeforeComment(raw);
    CutIffComment(raw);
    GuardedPrefix(raw, a);
    BreaklessPrefix(raw, a);
    StripStartKeeps(a);
    var b := StripStart(a);
    StripEndPrefix(b);
    var c := StripEnd(b);
    var d := DropQuotedComment(c);
    assert d <= c;
    GuardedPrefix(b, d);
    BreaklessPrefix(b, d);
    GuardedScalar(d);
  }

  lemma GuardedIsTame(line: string, key: string, lenient: bool)
    requires Guarded(line) && Breakless(line)
    ensures Tame(line, key, lenient)
  {
    hide Guarded, IsBreak, ValueOf, Strip, StripStart;
    if ReadLine(line, lenient).Field? && ReadLine(line, lenient).value.Text? {
      var (head, value) := Lex.Partition(':', line);
      hide Lex.Partition;
      if value.Some? {
        var k := |head| + 1;
        assert line[k - 1] == ':' && line[k..] == value.value;
        GuardedSuffix(line, k);
        GuardedValue(value.value);
      } else {
        EmptyIsGuarded();
        GuardedValue("");
      }
    }
  }

  lemma EmptyIsGuarded()
    ensures Guarded("")
  {
  }

  lemma {:induction false} LineBreakless(s: string)
    ensures Breakless(s[..LineLength(s)])
  {
    hide IsBreak;
    if s != [] && !IsBreak(s[0]) {
      LineBreakless(s[1..]);
      var n := LineLength(s[1..]);
      assert s[..n + 1] == [s[0]] + s[1..][..n];
    }
  }

  lemma {:induction false} LineStops(s: string)
    ensures LineLength(s) < |s| ==> IsBreak(s[LineLength(s)])
  {
    hide IsBreak;
    if s != [] && !IsBreak(s[0]) {
      LineStops(s[1..]);
    }
  }

  lemma {:induction false} GuardedLines(s: string, key: string, lenient: bool)
    requires Guarded(s)
    ensures forall line <- SplitLines(s) :: Tame(line, key, lenient)
    decreases |s|
  {
    hide Guarded, Tame, LineLength, IsBreak, Breakless;
    if s != [] {
      var n := LineLength(s);
      LineBreakless(s);
      LineStops(s);
      GuardedPrefix(s, s[..n]);
      GuardedIsTame(s[..n], key, lenient);
      if n == |s| {
        assert s[..n] == s;
      } else {
        var skip := BreakLength(s, n);
        assert s[n + skip - 1] != '\\' by { BackslashIsNoBreak(); }
        GuardedSuffix(s, n + skip);
        GuardedLines(s[n + skip..], key, lenient);
      }
    }
  }

  lemma BackslashIsNoBreak()
    ensures !IsBreak('\\')
  {
  }

  lemma {:induction false} DumpCutOpen(p: string)
    ensures BeforeComment(JsonChars(p)) == JsonChars(BeforeComment(p))
  {
    hide StartsWith, JsonChar;
    var t := JsonChars(p);
    PlainInDump(p, COMMENT);
    QuoteStartsNoComment(t);
    if p != [] && !StartsWith(p, COMMENT) {
      var rest := JsonChars(p[1..]);
      DumpCutOpen(p[1..]);
      JsonCharShape(p[0]);
      if p[0] == ' ' {
        CutSpace(rest);
      } else {
        CutSpaceless(JsonChar(p[0]), rest);
      }
      DumpCutStep(p);
    }
  }

  lemma QuoteStartsNoComment(t: string)
    ensures StartsWith(t + "\"", COMMENT) <==> StartsWith(t, COMMENT)
  {
    if |t| < 4 {
      NotComment(t + "\"", |t|);
    } else {
      assert (t + "\"")[..4] == t[..4];
    }
  }

  /** The first line of a broken title: an unclosed quote. */
  lemma OpenIsTame(key: string, p: string, lenient: bool)
    requires PlainKey(key) && Unbroken(p)
    ensures ReadLine(key + (":" + (" " + ("\"" + JsonChars(p)))), lenient) == Field(key, ValueOf(" " + ("\"" + JsonChars(p))))
    ensures Tame(key + (":" + (" " + ("\"" + JsonChars(p)))), key, lenient)
  {
    hide ReadLine, ValueOf, Breakless, JsonChars, PlainKey;
    var raw := " " + ("\"" + JsonChars(p));
    LineReads(key, raw, lenient);
    OpenValue(p);
  }

  lemma OpenValue(p: string)
    requires Unbroken(p)
    ensures ValueOf(" " + ("\"" + JsonChars(p))).Text? ==> Breakless(ValueOf(" " + ("\"" + JsonChars(p))).text)
  {
    hide BeforeComment, ScalarOf, DropQuotedComment, JsonChars, StripEnd, Unbroken, IsBreak;
    var d := "\"" + JsonChars(p);
    CutSpaceless("\"", JsonChars(p));
    NotComment(" " + d, 1);
    CutSpace(d);
    DumpCutOpen(p);
    CutIffComment(p);
    var kept := BeforeComment(p);
    StripLead("\"" + JsonChars(kept));
    var q := StripDump(kept);
    UnbrokenPrefix(p, q);
    DumpBreaks(q);
    QuoteIsNoBreak();
    var v := "\"" + JsonChars(q);
    assert Breakless(v);
    OpenScalar(q);
  }

  lemma UnbrokenPrefix(p: string, q: string)
    requires Unbroken(p) && q <= p
    ensures Unbroken(q)
  {
  }

  lemma OpenScalar(q: string)
    ensures var v := "\"" + JsonChars(q);
            && DropQuotedComment(v) == v
            && (ScalarOf(v) == Text(v) || (|v| >= 2 && ScalarOf(v) == Text(v[1..|v| - 1])))
  {
    hide JsonChars, JsonCodes, ClosingDouble, ScalarOf, DropQuotedComment;
    var j := JsonChars(q);
    var v := "\"" + j;
    assert v[1..] == j;
    DumpNeverCloses("\"", q);
    DumpDecodes(q, "");
    assert j + "" == j;
    NothingDecodes();
    UnclosedScalar(v);
  }

  lemma {:induction false} TameLinesRead(lines: seq<string>, key: string, lenient: bool)
    requires forall line <- lines :: Tame(line, key, lenient)
    ensures var r := ReadLines(lines, lenient);
            r.Fields? && key in r.fields && r.fields[key].Text? ==> Breakless(r.fields[key].text)
  {
    hide ReadLine, Breakless;
    if lines != [] {
      var n := |lines| - 1;
      TameLinesRead(lines[..n], key, lenient);
      assert lines[n] in lines;
      assert Tame(lines[n], key, lenient);
    }
  }

  lemma {:induction false} DumpConcat(a: string, b: string)
    ensures JsonChars(a + b) == JsonChars(a) + JsonChars(b)
  {
    hide JsonChar;
    if a == [] {
      assert a + b == b;
    } else {
      assert (a + b)[1..] == a[1..] + b;
      DumpConcat(a[1..], b);
    }
  }

  lemma DumpAround(p: string, c: char, q: string)
    requires IsRawBreak(c)
    ensures JsonChars(p + ([c] + q)) == JsonChars(p) + ([c] + JsonChars(q))
  {
    hide JsonChar, IsRawBreak;
    DumpConcat(p, [c] + q);
    JsonCharBreaks(c);
    assert ([c] + q)[1..] == q;
  }

  lemma DumpedLineSplits(key: string, p: string, c: char, q: string)
    requires PlainKey(key) && Unbroken(p) && IsRawBreak(c)
    ensures SplitLines(DumpedLine(key, p + ([c] + q))) ==
            [key + (":" + (" " + ("\"" + JsonChars(p))))] + SplitLines(JsonChars(q) + "\"")
  {
    hide SplitLines, IsBreak, Unbroken, JsonChars;
    var s := p + ([c] + q);
    DumpAround(p, c, q);
    JsonCharBreaks(c);
    var first, more := key + (":" + (" " + ("\"" + JsonChars(p)))), JsonChars(q) + "\"";
    assert DumpedLine(key, s) == first + ([c] + more);
    DumpBreaks(p);
    QuoteIsNoBreak();
    assert Breakless(first);
    SplitFirst(first, c, more);
  }

  lemma {:induction false} FirstRawBreak(s: string) returns (p: string, c: char, q: string)
    requires !Unbroken(s)
    ensures s == p + ([c] + q) && Unbroken(p) && IsRawBreak(c)
  {
    if IsRawBreak(s[0]) {
      p, c, q := "", s[0], s[1..];
    } else {
      var p1, c1, q1 := FirstRawBreak(s[1..]);
      p, c, q := [s[0]] + p1, c1, q1;
    }
  }

  /** A title with a raw break never reads back. */
  lemma BrokenIsLost(pre: seq<string>, key: string, s: string, post: seq<string>, rest: string, lenient: bool)
    requires PlainKey(key) && (rest == [] || rest[0] == '\n') && Others(pre, key, lenient) && Others(post, key, lenient)
    requires !Unbroken(s)
    ensures !Gives(Parse(DumpedFile(pre, key, s, post, rest), lenient), key, s)
  {
    hide ReadLines, SplitLines, JsonChars, Breakless, Tame, PlainKey, Unbroken, DumpedLine, DumpedFile, Parse, Others;
    var p, c, q := FirstRawBreak(s);
    DumpedLines(pre, key, s, post, rest, lenient);
    DumpedLineSplits(key, p, c, q);
    OpenIsTame(key, p, lenient);
    DumpGuarded(q);
    GuardedLines(JsonChars(q) + "\"", key, lenient);
    OthersAreTame(pre, key, lenient);
    OthersAreTame(post, key, lenient);
    RawBreakBreaks(p, c, q);
    var lines := pre + SplitLines(DumpedLine(key, s)) + post;
    forall line <- lines ensures Tame(line, key, lenient) {
      assert line in pre || line in SplitLines(DumpedLine(key, s)) || line in post;
    }
    TameLinesRead(lines, key, lenient);
  }

  lemma OthersAreTame(lines: seq<string>, key: string, lenient: bool)
    requires Others(lines, key, lenient)
    ensures forall line <- lines :: Tame(line, key, lenient)
  {
    hide ReadLine, Breakless;
  }

  lemma RawBreakBreaks(p: string, c: char, q: string)
    requires IsRawBreak(c)
    ensures !Breakless(p + ([c] + q))
  {
    JsonCharBreaks(c);
    assert (p + ([c] + q))[|p|] == c;
  }

  /**
   * A title written with plain `json.dumps` reads back from its file, strictly or leniently and whatever the
   * other fields, exactly when it holds neither `   #` nor one of the three line breaks that dumping leaves as they are.
   */
  lemma DumpedTitleReadsIff(pre: seq<string>, key: string, s: string, post: seq<string>, rest: string, lenient: bool)
    requires PlainKey(key) && (rest == [] || rest[0] == '\n') && Others(pre, key, lenient) && Others(post, key, lenient)
    ensures Gives(Parse(DumpedFile(pre, key, s, post, rest), lenient), key, s) <==> !HasComment(s) && Unbroken(s)
  {
    hide Parse, DumpedFile, PlainKey, ValueOf, HasComment, Unbroken, Others, Gives;
    if Unbroken(s) {
      UnbrokenReads(pre, key, s, post, rest, lenient, s);
      DumpedLineReadsIff(s);
    } else {
      BrokenIsLost(pre, key, s, post, rest, lenient);
    }
  }

  /** The fields that `quoted` writes are such others. */
  lemma QuotedFieldsAreOthers(fields: seq<KeyValue>, key: string, lenient: bool)
    requires forall f <- fields :: PlainKey(f.key) && f.key != key
    ensures Others(FieldLines(fields), key, lenient)
  {
    hide ReadLine, FieldLine, Breakless, PlainKey;
    var lines := FieldLines(fields);
    forall k | 0 <= k < |lines|
      ensures lines[k] != [] && Breakless(lines[k]) && lines[k][0] != '-' && IsOther(ReadLine(lines[k], lenient), key)
    {
      assert fields[k] in fields;
      FieldLineReads(fields[k], lenient);
      KeyStarts(fields[k].key);
    }
  }

  // ---------------------------------------------------------------- one title for each half

  lemma OpenLetter()
    ensures JsonChars("a") == "a" && ValueOf(" " + ("\"" + "a")) == Text("\"a")
  {
    hide ScalarOf, DropQuotedComment, BeforeComment, StripEnd, JsonChars;
    var v := "\"a";
    DumpLetter('a');
    assert "\"" + "a" == v;
    OpenUncut(v);
    StripLead(v);
    LetterStays(v);
    OpenScalar("a");
    UnquotedScalar(v);
  }

  lemma OpenUncut(v: string)
    requires v == "\"a"
    ensures BeforeComment(" " + v) == " " + v
  {
    hide BeforeComment;
    NotComment(" " + v, 1);
    CutSpace(v);
    assert v == v + "";
    CutSpaceless(v, "");
    NothingToCut();
  }

  lemma LetterStays(v: string)
    requires v != [] && 'a' <= v[|v| - 1] <= 'z'
    ensures StripEnd(v) == v
  {
  }

  /** A title loses everything from `   #` on, and its closing quote with it. */
  lemma CommentTitleIsCut(pre: seq<string>, key: string, post: seq<string>, rest: string, lenient: bool)
    requires PlainKey(key) && (rest == [] || rest[0] == '\n') && Others(pre, key, lenient) && Others(post, key, lenient)
    ensures Unbroken("a   #b")
    ensures Gives(Parse(DumpedFile(pre, key, "a   #b", post, rest), lenient), key, "\"a")
  {
    hide Parse, DumpedFile, PlainKey, ValueOf, Others, Gives;
    UnbrokenReads(pre, key, "a   #b", post, rest, lenient, "\"a");
    CommentLetter();
  }

  lemma CommentLetter()
    ensures ValueOf(" " + JsonDumps("a   #b")) == Text("\"a")
  {
    hide ScalarOf, DropQuotedComment, JsonChars, JsonCodes;
    var s := "a   #b";
    var dump := JsonChars(s) + "\"";
    var d := "\"" + dump;
    assert JsonDumps(s) == d;
    assert s[1..][..4] == COMMENT;
    assert StartsWith(s[1..], COMMENT);
    NotComment(s, 0);
    assert BeforeComment(s) == ['a'] + BeforeComment(s[1..]);
    assert HasComment(s) && BeforeComment(s) == "a";
    DumpCut(s);
    OpenLetter();
    CutSpaceless("\"", dump);
    NotComment(" " + d, 1);
    CutSpace(d);
    SameCut(d, "\"" + "a");
  }

  lemma SameCut(d: string, v: string)
    requires BeforeComment(" " + d) == " " + v && v == "\"a"
    ensures ValueOf(" " + d) == ValueOf(" " + v)
  {
    hide ScalarOf, DropQuotedComment, BeforeComment;
    OpenUncut(v);
  }

  /** A raw break ends the line inside the quotes, whatever stands on the next. */
  lemma BrokenTitleIsCut(pre: seq<string>, key: string, c: char, post: seq<string>, rest: string, lenient: bool)
    requires PlainKey(key) && (rest == [] || rest[0] == '\n') && Others(pre, key, lenient) && Others(post, key, lenient)
    requires IsRawBreak(c)
    ensures !HasComment(['a', c, 'b'])
    ensures Gives(Parse(DumpedFile(pre, key, ['a', c, 'b'], post, rest), lenient), key, "\"a")
  {
    hide ReadLine, ValueOf, PlainKey, JsonChars, SplitLines, DumpedFile, DumpedLine, Parse, Others;
    var s, first := "a" + ([c] + "b"), key + (":" + (" " + ("\"" + "a")));
    assert s == ['a', c, 'b'];
    ShortHasNoComment(s);
    DumpedLines(pre, key, s, post, rest, lenient);
    DumpedLineSplits(key, "a", c, "b");
    OpenLetter();
    LineReads(key, " " + ("\"" + "a"), lenient);
    LastLine(lenient);
    OthersRead(pre, key, lenient);
    var two := pre + [first] + ["b\""];
    assert two[..|pre| + 1] == pre + [first] && (pre + [first])[..|pre|] == pre;
    assert pre + SplitLines(DumpedLine(key, s)) == two;
    OthersAfter(two, post, key, Text("\"a"), lenient);
  }

  lemma LastLine(lenient: bool)
    ensures SplitLines(JsonChars("b") + "\"") == ["b\""] && ReadLine("b\"", lenient).Skipped?
  {
    hide SplitLines, JsonChars, ReadLine;
    DumpLetter('b');
    assert "b" + "\"" == "b\"";
    SplitLast("b\"");
    ColonlessSkipped("b\"", lenient);
  }

  lemma DumpLetter(c: char)
    requires 'a' <= c <= 'z'
    ensures JsonChars([c]) == [c]
  {
    assert [c][1..] == "";
    assert JsonChars([c]) == JsonChar(c) + "";
  }

  lemma ColonlessSkipped(line: string, lenient: bool)
    requires ':' !in line && line != [] && 'a' <= line[0] <= 'z' && !IsSpace(line[|line| - 1])
    ensures ReadLine(line, lenient).Skipped?
  {
    hide Strip, StripStart;
    StripBare(line);
  }

  lemma ShortHasNoComment(s: string)
    requires |s| < 4
    ensures !HasComment(s)
  {
  }
}
