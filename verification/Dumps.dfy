/** One line of a value written with plain `json.dumps`, as the frontmatter reader takes it apart. */
module Dumps {
  import opened Domain
  import opened Frontmatter
  import opened Quoting

  /** Whether `   #` stands anywhere in a text. */
  predicate HasComment(s: string) {
    s != [] && (StartsWith(s, COMMENT) || HasComment(s[1..]))
  }

  lemma {:induction false} CutIffComment(s: string)
    ensures HasComment(s) <==> BeforeComment(s) != s
    ensures BeforeComment(s) <= s && !HasComment(BeforeComment(s))
  {
    hide StartsWith;
    if s == [] || StartsWith(s, COMMENT) {
    } else {
      CutIffComment(s[1..]);
      var cut := BeforeComment(s);
      assert cut[1..] == BeforeComment(s[1..]) && s == [s[0]] + s[1..];
      if StartsWith(cut, COMMENT) {
        PrefixOfPrefix(s, cut);
      }
    }
  }

  lemma PrefixOfPrefix(s: string, t: string)
    requires t <= s && StartsWith(t, COMMENT)
    ensures StartsWith(s, COMMENT)
  {
  }

  lemma {:induction false} CommentInPrefix(s: string, t: string)
    requires t <= s && HasComment(t)
    ensures HasComment(s)
  {
    hide StartsWith;
    if StartsWith(t, COMMENT) {
      PrefixOfPrefix(s, t);
    } else {
      assert t[1..] <= s[1..];
      CommentInPrefix(s[1..], t[1..]);
    }
  }

  /** An escaped value is cut exactly where the value holds `   #`. */
  lemma {:induction false} DumpCut(s: string)
    ensures BeforeComment(JsonChars(s) + "\"") ==
            if HasComment(s) then JsonChars(BeforeComment(s)) else JsonChars(s) + "\""
  {
    hide StartsWith, JsonChar;
    var t := JsonChars(s) + "\"";
    PlainInDump(s, COMMENT);
    if s == [] {
      assert t == "\"" + "";
      CutSpaceless("\"", "");
    } else if !StartsWith(s, COMMENT) {
      var rest := JsonChars(s[1..]) + "\"";
      DumpCut(s[1..]);
      assert t == JsonChar(s[0]) + rest;
      JsonCharShape(s[0]);
      if s[0] == ' ' {
        CutSpace(rest);
      } else {
        CutSpaceless(JsonChar(s[0]), rest);
      }
      DumpCutStep(s);
    }
  }

  lemma DumpCutStep(s: string)
    requires s != [] && !StartsWith(s, COMMENT)
    ensures JsonChars(BeforeComment(s)) == JsonChar(s[0]) + JsonChars(BeforeComment(s[1..]))
  {
    assert BeforeComment(s)[1..] == BeforeComment(s[1..]);
  }

  lemma {:induction false} DumpDecodes(s: string, tail: string)
    ensures JsonCodes(JsonChars(s) + tail) ==
            if JsonCodes(tail).None? then None else Some(Codes(s) + JsonCodes(tail).value)
  {
    hide JsonCodes, JsonChar, Codes;
    if s == [] {
      assert JsonChars(s) + tail == tail && Codes(s) == [];
      if JsonCodes(tail).Some? {
        assert Codes(s) + JsonCodes(tail).value == JsonCodes(tail).value;
      }
    } else {
      var rest := JsonChars(s[1..]) + tail;
      DumpDecodes(s[1..], tail);
      DecodeJsonChar(s[0], rest);
      assert JsonChars(s) + tail == JsonChar(s[0]) + rest;
      assert Codes(s) == [s[0] as int] + Codes(s[1..]);
      if JsonCodes(tail).Some? {
        assert Codes(s) + JsonCodes(tail).value == [s[0] as int] + (Codes(s[1..]) + JsonCodes(tail).value);
      }
    }
  }

  lemma {:induction false} DumpSnoc(s: string)
    requires s != []
    ensures JsonChars(s) == JsonChars(s[..|s| - 1]) + JsonChar(s[|s| - 1])
  {
    hide JsonChar;
    var n := |s| - 1;
    if n > 0 {
      DumpSnoc(s[1..]);
      assert s[1..][..n - 1] == s[..n][1..];
    } else {
      assert s[1..] == "" && s[..0] == "";
      assert JsonChars(s) == JsonChar(s[0]) + "";
    }
  }

  lemma JsonCharEnd(c: char)
    ensures JsonChar(c) != [] && (JsonChar(c) == [c] || !IsSpace(JsonChar(c)[|JsonChar(c)| - 1]))
  {
  }

  /** Stripping an unclosed quoted text leaves another one. */
  lemma {:induction false} StripDump(p: string) returns (q: string)
    ensures q <= p && StripEnd("\"" + JsonChars(p)) == "\"" + JsonChars(q)
  {
    hide JsonChar, IsSpace;
    var t := "\"" + JsonChars(p);
    q := p;
    if p == [] {
      assert !IsSpace('\"') by { QuoteIsNoSpace(); }
    } else {
      var n := |p| - 1;
      DumpSnoc(p);
      JsonCharEnd(p[n]);
      assert t[|t| - 1] == JsonChar(p[n])[|JsonChar(p[n])| - 1];
      if IsSpace(t[|t| - 1]) {
        assert t[..|t| - 1] == "\"" + JsonChars(p[..n]);
        q := StripDump(p[..n]);
      }
    }
  }

  lemma QuoteIsNoSpace()
    ensures !IsSpace('\"')
  {
  }

  lemma {:induction false} DumpNeverCloses(a: string, q: string)
    ensures ClosingDouble(a + JsonChars(q), |a|).None?
    decreases |q|
  {
    hide ClosingDouble, JsonChar;
    if q == [] {
      assert a + JsonChars(q) == a;
      NothingCloses(a);
    } else {
      var head, rest := JsonChar(q[0]), JsonChars(q[1..]);
      DumpNeverCloses(a + head, q[1..]);
      assert a + JsonChars(q) == (a + head) + rest;
      ClosingSkips(a, q[0], rest);
    }
  }

  lemma NothingCloses(a: string)
    ensures ClosingDouble(a, |a|).None?
  {
  }

  lemma ClosingSkips(a: string, c: char, rest: string)
    ensures var s := (a + JsonChar(c)) + rest;
            ClosingDouble(s, |a|) == ClosingDouble(s, |a + JsonChar(c)|)
  {
    var s := (a + JsonChar(c)) + rest;
    var k := |a|;
    if JsonChar(c) == [c] {
      assert s[k] == c;
    } else if |JsonChar(c)| == 2 {
      assert s[k] == '\\';
    } else {
      EscapedCodeOf(c as int, rest);
      assert s[k..] == EscapeU(c as int) + rest;
      EscapeHasNoQuote(s, k);
    }
  }

  lemma IntegerStarts(v: string)
    requires IsInteger(v)
    ensures v != [] && (v[0] == '-' || '0' <= v[0] <= '9')
  {
    if v[0] != '-' {
      assert '0' <= v[0] <= '9';
    }
  }

  lemma UnclosedScalar(v: string)
    requires v != [] && v[0] == '\"' && JsonCodes(v[1..]).None? && ClosingDouble(v, 1).None?
    ensures DropQuotedComment(v) == v
    ensures ScalarOf(v) == Text(v) || (|v| >= 2 && ScalarOf(v) == Text(v[1..|v| - 1]))
  {
    hide JsonCodes, ClosingDouble, ScalarOf;
    if |v| >= 2 && v[|v| - 1] == '\"' {
      QuotesDropped(v);
    } else {
      UnquotedScalar(v);
    }
  }

  lemma QuotesDropped(v: string)
    requires |v| >= 2 && v[0] == '\"' == v[|v| - 1] && JsonCodes(v[1..]).None?
    ensures ScalarOf(v) == Text(v[1..|v| - 1])
  {
    hide JsonCodes;
  }

  lemma UnquotedScalar(v: string)
    requires v != [] && v[0] == '\"' && (|v| == 1 || v[|v| - 1] != '\"')
    ensures ScalarOf(v) == Text(v)
  {
    hide JsonCodes, IsInteger, Items, Strip, HalveQuotes, Magnitude;
    assert "true"[0] == 't' && "false"[0] == 'f';
    if IsInteger(v) {
      IntegerStarts(v);
    }
  }

  /** An unclosed quoted text without `   #` never reads as a text that holds it. */
  lemma UnclosedReads(q: string, s: string)
    requires !HasComment(q) && HasComment(s)
    ensures ScalarOf(DropQuotedComment("\"" + JsonChars(q))) != Text(s)
  {
    hide JsonChars, JsonCodes, HasComment, ClosingDouble, ScalarOf, DropQuotedComment, BeforeComment;
    var j := JsonChars(q);
    var v := "\"" + j;
    assert v[1..] == j;
    DumpNeverCloses("\"", q);
    DumpDecodes(q, "");
    assert j + "" == j;
    NothingDecodes();
    UnclosedScalar(v);
    DumpHasNoComment(q);
    QuoteAddsNoComment(j);
    if |v| >= 2 && HasComment(v[1..|v| - 1]) {
      CommentInPrefix(j, v[1..|v| - 1]);
    }
  }

  lemma DumpHasNoComment(q: string)
    requires !HasComment(q)
    ensures !HasComment(JsonChars(q))
  {
    hide HasComment, JsonChars, BeforeComment;
    var j := JsonChars(q);
    DumpCut(q);
    CutIffComment(j + "\"");
    if HasComment(j) {
      CommentInPrefix(j + "\"", j);
    }
  }

  lemma NothingDecodes()
    ensures JsonCodes("").None?
  {
  }

  lemma QuoteAddsNoComment(j: string)
    requires !HasComment(j)
    ensures !HasComment("\"" + j)
  {
    assert ("\"" + j)[1..] == j;
    NotComment("\"" + j, 0);
  }

  /** One line of a value written with plain `json.dumps` reads back exactly when the value holds no `   #`. */
  lemma DumpedLineReadsIff(s: string)
    ensures ValueOf(" " + JsonDumps(s)) == Text(s) <==> !HasComment(s)
  {
    hide BeforeComment, ScalarOf, DropQuotedComment, HasComment, JsonChars, StripEnd;
    var dump := JsonChars(s) + "\"";
    var d := "\"" + dump;
    assert JsonDumps(s) == d;
    CutSpaceless("\"", dump);
    NotComment(" " + d, 1);
    CutSpace(d);
    DumpCut(s);
    CutIffComment(s);
    var kept := BeforeComment(dump);
    StripLead("\"" + kept);
    if HasComment(s) {
      var q := StripDump(BeforeComment(s));
      if HasComment(q) {
        CommentInPrefix(BeforeComment(s), q);
        assert false;
      }
      UnclosedReads(q, s);
    } else {
      StripQuote(JsonChars(s));
      DumpedScalar(s);
    }
  }

  lemma StripLead(t: string)
    requires t != [] && t[0] == '\"'
    ensures Strip(" " + t) == StripEnd(t)
  {
    assert (" " + t)[1..] == t;
    assert StripStart(" " + t) == StripStart(t);
  }

  lemma StripQuote(j: string)
    ensures StripEnd("\"" + (j + "\"")) == "\"" + (j + "\"")
  {
  }

  lemma DumpedScalar(s: string)
    ensures var d := "\"" + (JsonChars(s) + "\""); ScalarOf(DropQuotedComment(d)) == Text(s)
  {
    hide JsonCodes, ClosingDouble, TextOf, JsonChars;
    var d := "\"" + (JsonChars(s) + "\"");
    assert d[1..] == JsonChars(s) + "\"";
    LoneQuote();
    DumpDecodes(s, "\"");
    assert Codes(s) + [] == Codes(s);
    AcceptedClosesAtEnd(d, 1);
    TextOfCodes(s);
  }
}
