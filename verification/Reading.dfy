/** What the frontmatter reader makes of each form a value can take: lists, integers, flags, single quotes, comments; and which lines it refuses. */
module Reading {
  import opened Domain
  import opened Frontmatter
  import opened Quoting
  import opened Dumps
  import opened Titles
  import Lex

  // ---------------------------------------------------------------- trimming

  predicate Trimmed(s: string) {
    s == [] || (!IsSpace(s[0]) && !IsSpace(s[|s| - 1]))
  }

  lemma TrimmedStays(s: string)
    requires Trimmed(s)
    ensures Strip(s) == s
  {
  }

  lemma StripLeading(c: char, s: string)
    requires IsSpace(c)
    ensures Strip([c] + s) == Strip(s)
  {
    assert ([c] + s)[1..] == s;
  }

  lemma {:induction false} StripStartTrailing(s: string, c: char)
    requires IsSpace(c)
    ensures StripStart(s + [c]) == if StripStart(s) == [] then [] else StripStart(s) + [c]
  {
    if s == [] {
      assert s + [c] == [c] && [c][1..] == [];
      assert StripStart([c]) == StripStart([]);
    } else if IsSpace(s[0]) {
      assert (s + [c])[1..] == s[1..] + [c];
      StripStartTrailing(s[1..], c);
    }
  }

  lemma StripTrailing(s: string, c: char)
    requires IsSpace(c)
    ensures Strip(s + [c]) == Strip(s)
  {
    StripStartTrailing(s, c);
    var x := StripStart(s);
    if x != [] {
      assert (x + [c])[..|x|] == x && (x + [c])[|x|] == c;
    }
  }

  // ---------------------------------------------------------------- inline lists

  function JoinItems(items: seq<string>): string
    requires items != []
  {
    if |items| == 1 then items[0] else items[0] + ("," + (" " + JoinItems(items[1..])))
  }

  function Scalars(items: seq<string>): (r: seq<Scalar>)
    ensures |r| == |items| && forall k :: 0 <= k < |r| ==> r[k] == ScalarOf(items[k])
  {
    seq(|items|, k requires 0 <= k < |items| => ScalarOf(items[k]))
  }

  lemma ItemsUnfold(head: string, tail: Option<string>)
    requires ',' !in head
    ensures Items(head + (if tail.None? then "" else "," + tail.value)) ==
            [ScalarOf(Strip(head))] + (if tail.None? then [] else Items(tail.value))
  {
    Lex.PartitionAt(',', head, tail);
    hide ScalarOf;
  }

  lemma SplitOnComma(s: string) returns (head: string, tail: Option<string>)
    ensures ',' !in head && s == head + (if tail.None? then "" else "," + tail.value)
    ensures tail.Some? ==> |tail.value| < |s|
  {
    var p := Lex.Partition(',', s);
    head, tail := p.0, p.1;
  }

  lemma ItemsLeading(c: char, s: string)
    requires IsSpace(c)
    ensures Items([c] + s) == Items(s)
  {
    hide Items, Strip;
    var head, tail := SplitOnComma(s);
    var end := if tail.None? then "" else "," + tail.value;
    ItemsUnfold(head, tail);
    assert ',' !in [c] + head by { CommaIsNoSpace(); }
    ItemsUnfold([c] + head, tail);
    assert [c] + s == ([c] + head) + end;
    StripLeading(c, head);
  }

  lemma CommaIsNoSpace()
    ensures !IsSpace(',')
  {
  }

  lemma {:induction false} ItemsTrailing(s: string, c: char)
    requires IsSpace(c)
    ensures Items(s + [c]) == Items(s)
    decreases |s|
  {
    hide Items, Strip;
    var head, tail := SplitOnComma(s);
    ItemsUnfold(head, tail);
    CommaIsNoSpace();
    if tail.None? {
      assert s == head;
      assert s + [c] == (head + [c]) + "";
      ItemsUnfold(head + [c], None);
      StripTrailing(head, c);
    } else {
      ItemsTrailing(tail.value, c);
      ItemsUnfold(head, Some(tail.value + [c]));
      assert s + [c] == head + ("," + (tail.value + [c]));
    }
  }

  lemma {:induction false} ItemsStripStart(s: string)
    ensures Items(StripStart(s)) == Items(s)
  {
    hide Items;
    if s != [] && IsSpace(s[0]) {
      ItemsStripStart(s[1..]);
      ItemsLeading(s[0], s[1..]);
      assert s == [s[0]] + s[1..];
    }
  }

  lemma {:induction false} ItemsStripEnd(s: string)
    ensures Items(StripEnd(s)) == Items(s)
  {
    hide Items;
    var n := |s| - 1;
    if s != [] && IsSpace(s[n]) {
      ItemsStripEnd(s[..n]);
      ItemsTrailing(s[..n], s[n]);
      assert s == s[..n] + [s[n]];
    }
  }

  /** Items that a list can hold one by one. */
  predicate Listable(items: seq<string>) {
    && items != [] && items != [""]
    && forall k :: 0 <= k < |items| ==> ',' !in items[k] && Trimmed(items[k])
  }

  lemma {:induction false} ItemsOfJoin(items: seq<string>)
    requires items != [] && forall k :: 0 <= k < |items| ==> ',' !in items[k] && Trimmed(items[k])
    ensures Items(JoinItems(items)) == Scalars(items)
  {
    hide Items, Strip, ScalarOf, Trimmed;
    TrimmedStays(items[0]);
    if |items| == 1 {
      ItemsUnfold(items[0], None);
      assert items[0] + "" == items[0];
      assert [ScalarOf(items[0])] + [] == Scalars(items);
    } else {
      var rest := items[1..];
      ItemsOfJoin(rest);
      assert IsSpace(' ');
      ItemsLeading(' ', JoinItems(rest));
      ItemsUnfold(items[0], Some(" " + JoinItems(rest)));
      assert [ScalarOf(items[0])] + Scalars(rest) == Scalars(items);
    }
  }

  lemma {:induction false} StripStartHolds(s: string, c: char)
    requires c in s && !IsSpace(c)
    ensures c in StripStart(s)
  {
    if IsSpace(s[0]) {
      StripStartHolds(s[1..], c);
    }
  }

  lemma {:induction false} StripEndHolds(s: string, c: char)
    requires c in s && !IsSpace(c)
    ensures c in StripEnd(s)
  {
    if IsSpace(s[|s| - 1]) {
      assert s == s[..|s| - 1] + [s[|s| - 1]];
      StripEndHolds(s[..|s| - 1], c);
    }
  }

  lemma JoinIsNotBlank(items: seq<string>)
    requires Listable(items)
    ensures Strip(JoinItems(items)) != []
  {
    var join := JoinItems(items);
    if |items| == 1 {
      TrimmedStays(items[0]);
    } else {
      assert join[|items[0]|] == ',';
      CommaIsNoSpace();
      StripStartHolds(join, ',');
      StripEndHolds(StripStart(join), ',');
    }
  }

  lemma ListScalar(inner: string)
    ensures ScalarOf("[" + inner + "]") == List(if Strip(inner) == [] then [] else Items(Strip(inner)))
  {
    var value := "[" + inner + "]";
    assert value[1..|value| - 1] == inner;
    hide Items, Strip;
  }

  /** An inline list reads as its items, each read on its own, in order. */
  lemma ListReads(items: seq<string>)
    requires Listable(items)
    ensures ScalarOf("[" + JoinItems(items) + "]") == List(Scalars(items))
  {
    hide Items, ScalarOf, JoinItems, Scalars;
    var join := JoinItems(items);
    ListScalar(join);
    JoinIsNotBlank(items);
    ItemsStripStart(join);
    ItemsStripEnd(StripStart(join));
    ItemsOfJoin(items);
  }

  /** A list of nothing, however spaced, is empty. */
  lemma EmptyListReads(blank: string)
    requires Strip(blank) == []
    ensures ScalarOf("[" + blank + "]") == List([])
  {
    ListScalar(blank);
  }

  // ---------------------------------------------------------------- integers, flags, single quotes

  function DigitsOf(n: nat): (r: string)
    ensures r != [] && forall k :: 0 <= k < |r| ==> '0' <= r[k] <= '9'
  {
    (if n < 10 then "" else DigitsOf(n / 10)) + ['0' + (n % 10) as char]
  }

  function Decimal(n: int): string {
    if n < 0 then "-" + DigitsOf(-n) else DigitsOf(n)
  }

  lemma {:induction false} MagnitudeOfDigits(n: nat)
    ensures Magnitude(DigitsOf(n)) == n
  {
    var d := DigitsOf(n);
    var k := |d| - 1;
    if n >= 10 {
      MagnitudeOfDigits(n / 10);
      assert d[..k] == DigitsOf(n / 10);
    } else {
      assert d[..k] == "";
    }
  }

  /** The decimal text of every integer reads back as that number. */
  lemma IntegerReads(n: int)
    ensures ScalarOf(Decimal(n)) == Number(n)
  {
    hide Items, Strip, JsonCodes, HalveQuotes, Magnitude;
    var d := Decimal(n);
    if n < 0 {
      MagnitudeOfDigits(-n);
      assert d[1..] == DigitsOf(-n);
    } else {
      MagnitudeOfDigits(n);
    }
    assert d[0] == '-' || '0' <= d[0] <= '9';
    assert IsInteger(d);
    assert "true"[0] == 't' && "false"[0] == 'f';
  }

  lemma FlagsRead()
    ensures ScalarOf("true") == Flag(true) && ScalarOf("false") == Flag(false)
  {
    hide Items, Strip, JsonCodes, HalveQuotes, Magnitude;
    assert "true"[0] == 't' && "true"[3] == 'e' && "false"[0] == 'f' && "false"[4] == 'e';
  }

  function Doubled(s: string): string {
    if s == [] then ""
    else if s[0] == '\'' then ['\'', '\''] + Doubled(s[1..])
    else [s[0]] + Doubled(s[1..])
  }

  lemma {:induction false} HalveDoubled(s: string)
    ensures HalveQuotes(Doubled(s)) == s
  {
    if s != [] {
      var rest := Doubled(s[1..]);
      HalveDoubled(s[1..]);
      assert s == [s[0]] + s[1..];
      if s[0] == '\'' {
        assert Doubled(s)[2..] == rest;
      } else {
        assert Doubled(s)[1..] == rest;
        if rest == [] {
          assert s[1..] == [] by { NothingDoubled(s[1..]); }
        }
      }
    }
  }

  lemma NothingDoubled(s: string)
    requires Doubled(s) == []
    ensures s == []
  {
  }

  /** A single-quoted value with its quotes doubled reads back as itself. */
  lemma SingleQuotedReads(s: string)
    ensures ScalarOf("'" + Doubled(s) + "'") == Text(s)
  {
    hide Items, Strip, JsonCodes, HalveQuotes, Magnitude, Doubled;
    var v := "'" + Doubled(s) + "'";
    HalveDoubled(s);
    assert v[1..|v| - 1] == Doubled(s);
  }

  // ---------------------------------------------------------------- in a file

  /** A trimmed value on its line is read whole, unless a comment cuts it or follows its quotes. */
  lemma PlainValue(v: string)
    requires v != [] && Trimmed(v) && !HasComment(v) && DropQuotedComment(v) == v
    ensures ValueOf(" " + v) == ScalarOf(v)
  {
    hide ScalarOf, DropQuotedComment, BeforeComment, HasComment, Strip;
    CutIffComment(v);
    assert !StartsWith(" " + v, COMMENT) by { SpaceBefore(v); }
    CutSpace(v);
    assert IsSpace(' ');
    StripLeading(' ', v);
    TrimmedStays(v);
  }

  lemma SpaceBefore(v: string)
    requires v != [] && !IsSpace(v[0])
    ensures !StartsWith(" " + v, COMMENT)
  {
    assert IsSpace(' ');
    NotComment(" " + v, 1);
  }

  /** A line `key: [..]` gives its key the list, among any other fields. */
  lemma ListFieldReads(pre: seq<string>, key: string, items: seq<string>, post: seq<string>, rest: string, lenient: bool)
    requires PlainKey(key) && (rest == [] || rest[0] == '\n') && Others(pre, key, lenient) && Others(post, key, lenient)
    requires Listable(items) && Breakless(JoinItems(items)) && !HasComment("[" + JoinItems(items) + "]")
    ensures var line := key + (":" + (" " + ("[" + JoinItems(items) + "]")));
            Has(Parse(OPENING + (JoinLines(pre + [line] + post) + (CLOSING + rest)), lenient), key, List(Scalars(items)))
  {
    hide JoinItems, Scalars, ScalarOf, ValueOf, HasComment, Parse, JoinLines, Others, PlainKey;
    var v := "[" + JoinItems(items) + "]";
    ListReads(items);
    BracketIsPlain(JoinItems(items));
    PlainValue(v);
    FieldReads(pre, key, " " + v, post, rest, lenient);
  }

  lemma BracketIsPlain(inner: string)
    requires Breakless(inner)
    ensures var v := "[" + inner + "]"; Trimmed(v) && DropQuotedComment(v) == v && Breakless(" " + v)
  {
  }

  // ---------------------------------------------------------------- a comment after the quotes

  lemma {:induction false} CutAfterQuote(a: string, b: string)
    requires !HasComment(a + "\"")
    ensures BeforeComment(a + ("\"" + b)) == a + ("\"" + BeforeComment(b))
  {
    hide StartsWith;
    if a == [] {
      assert a + ("\"" + b) == "\"" + b;
      CutSpaceless("\"", b);
    } else {
      var whole := a + ("\"" + b);
      assert (a + "\"")[1..] == a[1..] + "\"" && whole[1..] == a[1..] + ("\"" + b);
      CutAfterQuote(a[1..], b);
      QuoteStops(a, b);
    }
  }

  lemma QuoteStops(a: string, b: string)
    requires a != [] && !StartsWith(a + "\"", COMMENT)
    ensures !StartsWith(a + ("\"" + b), COMMENT)
  {
    if |a| < 4 {
      NotComment(a + ("\"" + b), |a|);
    } else {
      assert (a + ("\"" + b))[..4] == (a + "\"")[..4];
    }
  }

  lemma {:induction false} ClosingStays(s: string, t: string, k: nat)
    requires k <= |s| && ClosingDouble(s, k).Some?
    ensures ClosingDouble(s + t, k) == ClosingDouble(s, k)
    decreases |s| - k
  {
    if s[k] == '\"' {
    } else if s[k] != '\\' {
      ClosingStays(s, t, k + 1);
    } else {
      ClosingStays(s, t, k + 2);
    }
  }

  /** A comment after a quoted value is dropped, and the value reads back as itself. */
  lemma CommentedReads(s: string, note: string)
    requires !HasComment(" #" + note) && (note != [] ==> !IsSpace(note[|note| - 1]))
    ensures ValueOf(" " + (Quoted(s) + (" #" + note))) == Text(s)
  {
    hide Quoted, ScalarOf, BeforeComment, HasComment, Strip, DropQuotedComment;
    var v := Quoted(s) + (" #" + note);
    CommentedUncut(s, note);
    QuotedEnds(s);
    CommentedEnds(s, note);
    SpaceBefore(v);
    CutSpace(v);
    assert IsSpace(' ');
    StripLeading(' ', v);
    TrimmedStays(v);
    CommentedDropped(s, note);
    ScalarOfQuoted(s);
  }

  lemma CommentedEnds(s: string, note: string)
    requires note != [] ==> !IsSpace(note[|note| - 1])
    ensures var v := Quoted(s) + (" #" + note); v != [] && Trimmed(v)
  {
    hide Quoted, Body;
    QuotedIsBody(s);
    QuoteIsNoSpace();
    HashIsNoSpace();
    var v := Quoted(s) + (" #" + note);
    assert v[0] == '\"';
    assert v[|v| - 1] == if note == [] then '#' else note[|note| - 1];
  }

  lemma CommentedUncut(s: string, note: string)
    requires !HasComment(" #" + note)
    ensures var v := Quoted(s) + (" #" + note); BeforeComment(v) == v
  {
    hide Quoted, BeforeComment, HasComment, Body;
    var comment := " #" + note;
    QuotedIsBody(s);
    BodyUncut(s);
    CutIffComment(Body(s) + "\"");
    CutIffComment(comment);
    CutAfterQuote(Body(s), comment);
    CutSpaceless("\"", Body(s) + ("\"" + comment));
    assert Quoted(s) + comment == "\"" + (Body(s) + ("\"" + comment));
  }

  /** Blanks and then a hash: what may follow a closing quote and be dropped. */
  predicate IsComment(tail: string) {
    exists k :: 0 < k < |tail| && HashAt(tail, k)
  }

  predicate HashAt(tail: string, k: nat)
    requires k < |tail|
  {
    tail[k] == '#' && forall i :: 0 <= i < k ==> IsSpace(tail[i])
  }

  lemma {:induction false} HashStripped(tail: string)
    ensures StartsWith(StripStart(tail), "#") <==> exists k :: 0 <= k < |tail| && HashAt(tail, k)
  {
    HashIsNoSpace();
    hide IsSpace;
    if tail != [] {
      if IsSpace(tail[0]) {
        HashStripped(tail[1..]);
        forall k | 0 < k < |tail| ensures HashAt(tail, k) <==> HashAt(tail[1..], k - 1) {
          assert forall i :: 0 < i < k ==> tail[i] == tail[1..][i - 1];
        }
        if k :| 0 <= k < |tail| - 1 && HashAt(tail[1..], k) {
          assert HashAt(tail, k + 1);
        }
      } else if tail[0] == '#' {
        assert HashAt(tail, 0);
      }
    }
  }

  lemma TrailingIff(tail: string)
    ensures IsTrailingComment(tail) <==> IsComment(tail)
  {
    HashIsNoSpace();
    hide IsSpace, StartsWith;
    HashStripped(tail);
    if k :| 0 <= k < |tail| && HashAt(tail, k) {
      assert tail[0] == if k == 0 then '#' else tail[0];
    }
  }

  lemma {:induction false} ClosingOfDoubled(pre: string, s: string, tail: string)
    requires tail == [] || tail[0] != '\''
    ensures ClosingSingle(pre + Doubled(s) + "'" + tail, |pre|) == Some(|pre| + |Doubled(s)|)
    decreases |s|
  {
    var v := pre + Doubled(s) + "'" + tail;
    if s != [] {
      var head := if s[0] == '\'' then "''" else [s[0]];
      ClosingOfDoubled(pre + head, s[1..], tail);
      assert pre + head + Doubled(s[1..]) + "'" + tail == v;
    }
  }

  /** After either kind of quotes a comment is dropped, and anything else is kept. */
  lemma QuotedCommentIff(s: string, tail: string)
    ensures DropQuotedComment(Quoted(s) + tail) == if IsComment(tail) then Quoted(s) else Quoted(s) + tail
    ensures tail == [] || tail[0] != '\'' ==>
              DropQuotedComment("'" + Doubled(s) + "'" + tail) == "'" + Doubled(s) + "'" + if IsComment(tail) then "" else tail
  {
    hide Quoted, ClosingDouble, ClosingSingle, Body, JsonCodes, Doubled, IsTrailingComment, IsComment;
    TrailingIff(tail);
    DoubleCloses(s, tail);
    var v := Quoted(s) + tail;
    assert v[..|Quoted(s)|] == Quoted(s) && v[|Quoted(s)|..] == tail;
    if tail == [] || tail[0] != '\'' {
      var q := "'" + Doubled(s) + "'";
      ClosingOfDoubled("'", s, tail);
      assert (q + tail)[..|q|] == q && (q + tail)[|q|..] == tail && q + "" == q;
    }
  }

  lemma DoubleCloses(s: string, tail: string)
    ensures var q := Quoted(s); |q| >= 2 && q[0] == '\"' && ClosingDouble(q + tail, 1) == Some(|q| - 1)
  {
    hide Quoted, ClosingDouble, Body, JsonCodes;
    var q := Quoted(s);
    QuotedIsBody(s);
    BodyDecodes(s);
    assert q[1..] == Body(s) + "\"";
    AcceptedClosesAtEnd(q, 1);
    ClosingStays(q, tail, 1);
  }

  lemma CommentedDropped(s: string, note: string)
    ensures DropQuotedComment(Quoted(s) + (" #" + note)) == Quoted(s)
  {
    hide Quoted, DropQuotedComment, Doubled;
    var tail := " #" + note;
    assert IsSpace(' ') && HashAt(tail, 1);
    QuotedCommentIff(s, tail);
  }

  lemma HashIsNoSpace()
    ensures !IsSpace('#')
  {
  }

  // ---------------------------------------------------------------- lines refused and skipped

  /** A line of a block list: a dash and a space after any indentation. */
  predicate IsBlockItem(line: string) {
    exists k: nat :: k < |line| && ItemAt(line, k)
  }

  predicate ItemAt(line: string, k: nat)
    requires k < |line|
  {
    Indented(line, k) && StartsWith(line[k..], "- ")
  }

  predicate Indented(line: string, k: nat)
    requires k <= |line|
  {
    forall i :: 0 <= i < k ==> IsSpace(line[i])
  }

  lemma {:induction false} BlockItemStripped(line: string)
    ensures IsBlockItem(line) <==> StartsWith(StripStart(line), "- ")
  {
    hide StartsWith;
    if line == [] {
      NothingStarts();
    } else if IsSpace(line[0]) {
      BlockItemStripped(line[1..]);
      assert !StartsWith(line[0..], "- ") by { SpaceIsNoDash(line); }
      forall k: nat | k < |line| - 1 ensures ItemAt(line[1..], k) <==> ItemAt(line, k + 1) {
        assert line[1..][k..] == line[k + 1..];
        IndentedTail(line, k);
      }
      if k: nat :| k < |line| && ItemAt(line, k) {
        assert k > 0;
        assert ItemAt(line[1..], k - 1);
      }
      if k: nat :| k < |line[1..]| && ItemAt(line[1..], k) {
        assert ItemAt(line, k + 1);
      }
    } else {
      assert line[0..] == line;
      assert ItemAt(line, 0) <==> StartsWith(line, "- ");
    }
  }

  lemma NothingStarts()
    ensures !StartsWith("", "- ")
  {
  }

  lemma SpaceIsNoDash(line: string)
    requires line != [] && IsSpace(line[0])
    ensures !StartsWith(line[0..], "- ")
  {
    assert line[0..] == line;
  }

  lemma IndentedTail(line: string, k: nat)
    requires line != [] && IsSpace(line[0]) && k < |line|
    ensures Indented(line[1..], k) <==> Indented(line, k + 1)
  {
    assert forall i :: 0 <= i < k ==> line[1..][i] == line[i + 1];
    assert forall i :: 1 <= i < k + 1 ==> line[i] == line[1..][i - 1];
  }

  lemma RefusedIff(line: string, lenient: bool)
    ensures ReadLine(line, lenient).Refused? <==> !lenient && IsBlockItem(line)
  {
    BlockItemStripped(line);
    hide ValueOf, Strip;
    if lenient && StartsWith(StripStart(line), "- ") && !IsSpace(line[0]) {
      assert StripStart(line) == line;
    }
  }

  /** Strict reading refuses a block exactly for a block list in it; lenient reading never refuses. */
  lemma {:induction false} LinesRefusedIff(lines: seq<string>, lenient: bool)
    ensures ReadLines(lines, lenient).RefusedList? <==> !lenient && exists k :: 0 <= k < |lines| && IsBlockItem(lines[k])
  {
    hide ReadLine, IsBlockItem;
    if lines != [] {
      var n := |lines| - 1;
      LinesRefusedIff(lines[..n], lenient);
      RefusedIff(lines[n], lenient);
      assert forall k :: 0 <= k < n ==> lines[..n][k] == lines[k];
    }
  }

  /** Lines that are blank, indented under lenient reading, comments, or without a colon set nothing. */
  lemma SkippedIff(line: string, lenient: bool)
    ensures ReadLine(line, lenient).Skipped? <==>
            if lenient && line != [] && (IsSpace(line[0]) || StartsWith(line, "- ")) then true
            else !IsBlockItem(line) && (Strip(line) == [] || StartsWith(StripStart(line), "#") || ':' !in line)
  {
    BlockItemStripped(line);
    hide ValueOf, Strip, IsBlockItem;
  }

  const SPACE_CODES := {
    0x09, 0x0A, 0x0B, 0x0C, 0x0D, 0x1C, 0x1D, 0x1E, 0x1F, 0x20, 0x85, 0xA0, 0x1680, 0x2000, 0x2001, 0x2002, 0x2003, 0x2004,
    0x2005, 0x2006, 0x2007, 0x2008, 0x2009, 0x200A, 0x2028, 0x2029, 0x202F, 0x205F, 0x3000}

  lemma SpaceIff(c: char)
    ensures IsSpace(c) <==> c as int in SPACE_CODES
  {
  }

  /** Nothing but characters that trimming removes. */
  predicate Blank(s: string) {
    forall k :: 0 <= k < |s| ==> s[k] as int in SPACE_CODES
  }

  lemma {:induction false} StripStartSplits(s: string) returns (lead: string)
    ensures Blank(lead) && s == lead + StripStart(s)
  {
    hide IsSpace, SPACE_CODES;
    lead := "";
    if s != [] && IsSpace(s[0]) {
      SpaceIff(s[0]);
      var l := StripStartSplits(s[1..]);
      lead := [s[0]] + l;
    }
  }

  lemma {:induction false} StripEndSplits(s: string) returns (trail: string)
    ensures Blank(trail) && s == StripEnd(s) + trail
    ensures StripEnd(s) != [] ==> !IsSpace(StripEnd(s)[|StripEnd(s)| - 1])
  {
    hide IsSpace, SPACE_CODES;
    trail := "";
    if s != [] && IsSpace(s[|s| - 1]) {
      SpaceIff(s[|s| - 1]);
      var t := StripEndSplits(s[..|s| - 1]);
      trail := t + [s[|s| - 1]];
    }
  }

  lemma {:induction false} StripStartStops(s: string)
    ensures StripStart(s) != [] ==> !IsSpace(StripStart(s)[0])
  {
    hide IsSpace;
    if s != [] && IsSpace(s[0]) {
      StripStartStops(s[1..]);
    }
  }

  lemma StripSplits(s: string) returns (lead: string, trail: string)
    ensures Blank(lead) && Blank(trail) && Trimmed(Strip(s)) && s == lead + Strip(s) + trail
  {
    hide IsSpace;
    lead := StripStartSplits(s);
    trail := StripEndSplits(StripStart(s));
    StripStartStops(s);
    var rest := StripStart(s);
    assert rest == Strip(s) + trail;
    assert Strip(s) != [] ==> Strip(s)[0] == rest[0];
    assert s == lead + (Strip(s) + trail);
  }

  /** A line that is neither sets a field: the key is the trimmed text before its first colon, the value is read from all after it. */
  lemma FieldMeans(line: string, lenient: bool) returns (lead: string, trail: string, raw: string)
    requires ReadLine(line, lenient).Field?
    ensures var f := ReadLine(line, lenient);
            && line == lead + f.key + trail + ":" + raw && f.value == ValueOf(raw)
            && Blank(lead) && Blank(trail) && Trimmed(f.key) && ':' !in lead + f.key + trail
  {
    hide ValueOf, Strip, IsSpace, StripStart, StartsWith, Trimmed, Blank, Lex.Partition;
    var (head, tail) := Lex.Partition(':', line);
    lead, trail := StripSplits(head);
    raw := tail.value;
    assert line == head + (":" + raw);
  }

  // ---------------------------------------------------------------- the block

  lemma {:induction false} BlockLengthMeans(s: string)
    ensures BlockLength(s).Some? ==>
              ClosesAt(s[BlockLength(s).value..]) && forall k :: 0 <= k < BlockLength(s).value ==> !ClosesAt(s[k..])
    ensures BlockLength(s).None? ==> forall k :: 0 <= k <= |s| ==> !ClosesAt(s[k..])
  {
    hide ClosesAt;
    assert s[0..] == s;
    if s == [] {
      assert !ClosesAt([]) by { NoRule(); }
    } else if !ClosesAt(s) {
      var later, r := s[1..], BlockLength(s);
      BlockLengthMeans(later);
      forall k | 1 <= k <= |s| ensures s[k..] == later[k - 1..] {
      }
      if r.Some? {
        assert r.value >= 1 && BlockLength(later) == Some(r.value - 1);
      }
      forall k | 0 <= k <= |s| && (r.Some? ==> k < r.value) ensures !ClosesAt(s[k..]) {
        if k > 0 {
          assert s[k..] == later[k - 1..];
        }
      }
    }
  }

  lemma NoRule()
    ensures !ClosesAt([])
  {
  }

  /** The frontmatter is the shortest text between an opening rule and a rule that ends its line. */
  ghost predicate Delimits(text: string, block: string, rest: string) {
    text == "---\n" + (block + ("\n---" + rest)) && (rest == [] || rest[0] == '\n')
  }

  lemma ClosesMeans(s: string)
    ensures ClosesAt(s) <==> exists rest :: s == "\n---" + rest && (rest == [] || rest[0] == '\n')
  {
    if ClosesAt(s) {
      assert s == "\n---" + s[4..];
      assert s[4..] == [] || s[4..][0] == '\n';
    }
    if rest :| s == "\n---" + rest && (rest == [] || rest[0] == '\n') {
      assert s[..4] == CLOSING;
    }
  }

  lemma BlockIsShortest(text: string, block: string)
    ensures Block(text) == Some(block) <==>
            && (exists rest :: Delimits(text, block, rest))
            && (forall other, rest :: Delimits(text, other, rest) ==> |block| <= |other|)
  {
    hide ClosesAt, BlockLength;
    if StartsWith(text, OPENING) {
      var s := text[4..];
      assert text == OPENING + s;
      BlockLengthMeans(s);
      forall other, rest | Delimits(text, other, rest) ensures |other| <= |s| && s[..|other|] == other && ClosesAt(s[|other|..]) {
        assert s == other + ("\n---" + rest);
        ClosesMeans(s[|other|..]);
        assert s[|other|..] == "\n---" + rest;
      }
      if BlockLength(s).Some? {
        var n := BlockLength(s).value;
        ClosesMeans(s[n..]);
        var rest :| s[n..] == "\n---" + rest && (rest == [] || rest[0] == '\n');
        assert s == s[..n] + s[n..];
        assert Delimits(text, s[..n], rest);
      }
    } else {
      forall other, rest ensures !Delimits(text, other, rest) {
        if Delimits(text, other, rest) {
          OpensFile(text, other, rest);
        }
      }
    }
  }

  lemma OpensFile(text: string, other: string, rest: string)
    requires Delimits(text, other, rest)
    ensures StartsWith(text, OPENING)
  {
    assert text[..4] == OPENING;
  }

  // ---------------------------------------------------------------- lines

  const BREAK_CODES := {0x0A, 0x0B, 0x0C, 0x0D, 0x1C, 0x1D, 0x1E, 0x85, 0x2028, 0x2029}

  predicate IsLineBreak(sep: string) {
    sep == "\r\n" || (|sep| == 1 && sep[0] as int in BREAK_CODES)
  }

  predicate Whole(line: string) {
    forall k :: 0 <= k < |line| ==> line[k] as int !in BREAK_CODES
  }

  function Interleave(lines: seq<string>, seps: seq<string>): string
    requires |lines| == |seps|
  {
    if lines == [] then "" else lines[0] + (seps[0] + Interleave(lines[1..], seps[1..]))
  }

  /** A carriage return and the newline after it are one break. */
  predicate PairsKept(lines: seq<string>, seps: seq<string>)
    requires |lines| == |seps|
  {
    forall k :: 0 < k < |seps| && seps[k - 1] == "\r" && lines[k] == "" ==> seps[k] == "" || seps[k][0] != '\n'
  }

  lemma NoPairs()
    ensures PairsKept([], [])
  {
  }

  lemma OneLineKept(s: string)
    ensures PairsKept([s], [""])
  {
  }

  lemma PairKept(s: string, n: nat, rest: seq<string>, more: seq<string>)
    requires n < |s| && |rest| == |more| && PairsKept(rest, more)
    requires var m := n + BreakLength(s, n); Interleave(rest, more) == s[m..]
    ensures PairsKept([s[..n]] + rest, [s[n..n + BreakLength(s, n)]] + more)
  {
    var m := n + BreakLength(s, n);
    var lines, seps := [s[..n]] + rest, [s[n..m]] + more;
    forall k | 0 < k < |seps| && seps[k - 1] == "\r" && lines[k] == "" ensures seps[k] == "" || seps[k][0] != '\n' {
      if k == 1 {
        assert s[n..m] == "\r" && rest[0] == "";
        assert m == n + 1 && s[n] == s[n..m][0];
        assert Interleave(rest, more) == more[0] + Interleave(rest[1..], more[1..]);
        if more[0] != "" {
          assert s[m] == s[m..][0] == more[0][0];
        }
      } else {
        assert seps[k - 1] == more[k - 2] && lines[k] == rest[k - 1] && seps[k] == more[k - 1];
      }
    }
  }

  /** The lines are the text between its breaks: none holds a break, and with the breaks put back they are the text. */
  lemma {:induction false} LinesRejoin(s: string) returns (seps: seq<string>)
    ensures var lines := SplitLines(s);
            && |seps| == |lines| && Interleave(lines, seps) == s
            && (forall k :: 0 <= k < |lines| ==> Whole(lines[k]))
            && (forall k :: 0 <= k < |seps| ==> IsLineBreak(seps[k]) || (k == |seps| - 1 && seps[k] == ""))
            && PairsKept(lines, seps)
    decreases |s|
  {
    hide LineLength, SplitLines, BreakLength, Whole, IsLineBreak, PairsKept;
    seps := [];
    if s == [] {
      NoLines();
      NoPairs();
    } else {
      var n := LineLength(s);
      LineBreakless(s);
      LineStops(s);
      WholeIff(s[..n]);
      if n == |s| {
        assert s[..n] == s;
        seps := [""];
        SplitLast(s);
        assert [s][1..] == [] && [""][1..] == [];
        assert s + ("" + "") == s;
        OneLineKept(s);
      } else {
        var m := n + BreakLength(s, n);
        BreakIsOne(s, n);
        var more := LinesRejoin(s[m..]);
        seps := [s[n..m]] + more;
        RejoinStep(s, n, m, seps, more);
        PairKept(s, n, SplitLines(s[m..]), more);
      }
    }
  }

  lemma NoLines()
    ensures SplitLines("") == []
  {
  }

  lemma WholeIff(line: string)
    requires Breakless(line)
    ensures Whole(line)
  {
  }

  lemma BreakIsOne(s: string, n: nat)
    requires n < |s| && IsBreak(s[n])
    ensures IsLineBreak(s[n..n + BreakLength(s, n)])
  {
  }

  lemma RejoinStep(s: string, n: nat, m: nat, seps: seq<string>, more: seq<string>)
    requires n == LineLength(s) < |s| && m == n + BreakLength(s, n) && seps == [s[n..m]] + more
    requires |more| == |SplitLines(s[m..])| && Interleave(SplitLines(s[m..]), more) == s[m..]
    ensures SplitLines(s) == [s[..n]] + SplitLines(s[m..]) && Interleave(SplitLines(s), seps) == s
  {
    hide LineLength, SplitLines, BreakLength;
    SplitOff(s);
    var rest := SplitLines(s[m..]);
    assert ([s[..n]] + rest)[1..] == rest && seps[1..] == more;
    assert s == s[..n] + (s[n..m] + s[m..]);
  }
}
