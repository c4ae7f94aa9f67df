/** Which strings are orderable versions, and how two of them compare. */
module SemVer {
  import opened Domain
  import Lex

  /** The texts a match captures; identifiers are kept split at their dots. */
  datatype Parts = Parts(
    major: string,
    minor: string,
    patch: string,
    prerelease: Option<seq<string>>,
    build: Option<seq<string>>)

  datatype Version = Version(major: nat, minor: nat, patch: nat, prerelease: Option<seq<string>>)

  // ---------------------------------------------------------------- the grammar

  predicate IsDigit(c: char) { '0' <= c <= '9' }

  predicate IsLetter(c: char) { 'a' <= c <= 'z' || 'A' <= c <= 'Z' || c == '-' }

  predicate Digits(s: string) {
    s != [] && forall k :: 0 <= k < |s| ==> IsDigit(s[k])
  }

  /** `0|[1-9][0-9]*` */
  predicate Numeral(s: string) {
    Digits(s) && (s[0] == '0' ==> |s| == 1)
  }

  /** `[0-9A-Za-z-]+` */
  predicate BuildIdentifier(s: string) {
    s != [] && forall k :: 0 <= k < |s| ==> IsDigit(s[k]) || IsLetter(s[k])
  }

  /** A numeral, or letters, digits and hyphens that are not all digits. */
  predicate Identifier(s: string) {
    BuildIdentifier(s) && (Digits(s) ==> Numeral(s))
  }

  predicate WellFormed(p: Parts) {
    && Numeral(p.major) && Numeral(p.minor) && Numeral(p.patch)
    && (p.prerelease.Some? ==> p.prerelease.value != [] && forall x <- p.prerelease.value :: Identifier(x))
    && (p.build.Some? ==> p.build.value != [] && forall x <- p.build.value :: BuildIdentifier(x))
  }

  function Join(fields: seq<string>): string
    requires fields != []
  {
    if |fields| == 1 then fields[0] else fields[0] + "." + Join(fields[1..])
  }

  function Suffix(mark: char, fields: Option<seq<string>>): string
    requires fields.Some? ==> fields.value != []
  {
    if fields.None? then "" else [mark] + Join(fields.value)
  }

  /** The text before any build metadata. */
  function Precedence(p: Parts): string
    requires WellFormed(p)
  {
    Join([p.major, p.minor, p.patch]) + Suffix('-', p.prerelease)
  }

  function Render(p: Parts): string
    requires WellFormed(p)
  {
    Precedence(p) + Suffix('+', p.build)
  }

  // ---------------------------------------------------------------- the parser

  function Split(s: string): (r: seq<string>)
    ensures r != [] && Join(r) == s
    ensures forall x <- r :: '.' !in x
    decreases |s|
  {
    var (head, tail) := Lex.Partition('.', s);
    if tail.None? then [head]
    else
      var rest := Split(tail.value);
      assert ([head] + rest)[1..] == rest;
      [head] + rest
  }

  function Fields(text: Option<string>): Option<seq<string>> {
    if text.None? then None else Some(Split(text.value))
  }

  function Match(value: string): Option<Parts> {
    var (precedence, build) := Lex.Partition('+', value);
    var (core, prerelease) := Lex.Partition('-', precedence);
    var numbers := Split(core);
    if |numbers| != 3 then None
    else
      var parts := Parts(numbers[0], numbers[1], numbers[2], Fields(prerelease), Fields(build));
      if WellFormed(parts) then Some(parts) else None
  }

  function Lower(c: char): char {
    if 'A' <= c <= 'Z' then c + 32 as char else c
  }

  /** `"-dev" in value.casefold()`, for the ASCII text that can match. */
  predicate MarksDevelopment(value: string) {
    exists k :: 0 <= k <= |value| - 4 && value[k] == '-' && Lower(value[k + 1]) == 'd'
      && Lower(value[k + 2]) == 'e' && Lower(value[k + 3]) == 'v'
  }

  function Number(s: string): nat {
    if s == [] then 0
    else 10 * Number(s[..|s| - 1]) + (if IsDigit(s[|s| - 1]) then (s[|s| - 1] - '0') as nat else 0)
  }

  function ParseOrderable(value: string): Option<Version> {
    var parts := Match(value);
    if parts.None? || MarksDevelopment(value) then None
    else
      var p := parts.value;
      Some(Version(Number(p.major), Number(p.minor), Number(p.patch), p.prerelease))
  }

  // ---------------------------------------------------------------- comparison

  function CompareItems(left: string, right: string): int {
    if left == right then 0
    else if Digits(left) && Digits(right) then (if Number(left) < Number(right) then -1 else 1)
    else if Digits(left) != Digits(right) then (if Digits(left) then -1 else 1)
    else if Lex.Le(left, right) then -1 else 1
  }

  function CompareLists(left: seq<string>, right: seq<string>): int {
    if left == [] || right == [] then
      if |left| == |right| then 0 else if |left| < |right| then -1 else 1
    else if left[0] == right[0] then CompareLists(left[1..], right[1..])
    else CompareItems(left[0], right[0])
  }

  function ComparePrereleases(left: Option<seq<string>>, right: Option<seq<string>>): int {
    if left.None? || right.None? then
      if left == right then 0 else if left.None? then 1 else -1
    else CompareLists(left.value, right.value)
  }

  method ComparePrerelease(left: Option<seq<string>>, right: Option<seq<string>>) returns (r: int)
    ensures r == ComparePrereleases(left, right)
  {
    if left.None? || right.None? {
      if left.None? && right.None? {
        return 0;
      }
      return if left.None? then 1 else -1;
    }
    var ls, rs := left.value, right.value;
    var shorter := if |ls| < |rs| then |ls| else |rs|;
    for i := 0 to shorter
      invariant CompareLists(ls, rs) == CompareLists(ls[i..], rs[i..])
    {
      if ls[i] == rs[i] {
        continue;
      }
      var leftNumeric, rightNumeric := Digits(ls[i]), Digits(rs[i]);
      if leftNumeric && rightNumeric {
        return if Number(ls[i]) < Number(rs[i]) then -1 else 1;
      }
      if leftNumeric != rightNumeric {
        return if leftNumeric then -1 else 1;
      }
      return if Lex.Le(ls[i], rs[i]) then -1 else 1;
    }
    if |ls| == |rs| {
      return 0;
    }
    return if |ls| < |rs| then -1 else 1;
  }

  function CompareCores(left: Version, right: Version): int {
    if left.major != right.major then (if left.major < right.major then -1 else 1)
    else if left.minor != right.minor then (if left.minor < right.minor then -1 else 1)
    else if left.patch != right.patch then (if left.patch < right.patch then -1 else 1)
    else 0
  }

  function CompareVersions(left: Version, right: Version): int {
    if CompareCores(left, right) != 0 then CompareCores(left, right)
    else ComparePrereleases(left.prerelease, right.prerelease)
  }

  function Compare(left: string, right: string): Option<int> {
    var l, r := ParseOrderable(left), ParseOrderable(right);
    if l.None? || r.None? then None else Some(CompareVersions(l.value, r.value))
  }

  // ---------------------------------------------------------------- the parser is the grammar

  lemma {:induction false} SplitJoin(fields: seq<string>)
    requires fields != [] && forall x <- fields :: '.' !in x
    ensures Split(Join(fields)) == fields
  {
    hide Lex.Partition;
    if |fields| == 1 {
      Lex.PartitionAt('.', fields[0], None);
      assert Join(fields) == fields[0] + "";
      assert fields == [fields[0]];
    } else {
      var rest := fields[1..];
      SplitJoin(rest);
      Lex.PartitionAt('.', fields[0], Some(Join(rest)));
      assert Join(fields) == fields[0] + (['.'] + Join(rest));
      assert fields == [fields[0]] + rest;
    }
  }

  lemma {:induction false} JoinAvoids(fields: seq<string>, c: char)
    requires fields != [] && c != '.' && forall x <- fields :: c !in x
    ensures c !in Join(fields)
  {
    if |fields| > 1 {
      JoinAvoids(fields[1..], c);
    }
  }

  lemma NumeralAvoids(s: string)
    requires Digits(s)
    ensures '.' !in s && '-' !in s && '+' !in s
  {
  }

  lemma BuildIdentifierAvoids(s: string)
    requires BuildIdentifier(s)
    ensures '.' !in s && '+' !in s
  {
  }

  /** What the grammar writes, the parser reads back. */
  lemma MatchRender(p: Parts)
    requires WellFormed(p)
    ensures Match(Render(p)) == Some(p)
    ensures Lex.Partition('+', Render(p)).0 == Precedence(p)
  {
    hide Lex.Partition, Split, Join, Numeral, Identifier, BuildIdentifier;
    var numbers := [p.major, p.minor, p.patch];
    CoreAvoids(p);
    PrereleaseAvoids(p);
    BuildAvoids(p);
    var tail := if p.build.None? then None else Some(Join(p.build.value));
    Lex.PartitionAt('+', Precedence(p), tail);
    var pre := if p.prerelease.None? then None else Some(Join(p.prerelease.value));
    Lex.PartitionAt('-', Join(numbers), pre);
    SplitJoin(numbers);
    if p.prerelease.Some? {
      SplitJoin(p.prerelease.value);
    }
    if p.build.Some? {
      SplitJoin(p.build.value);
    }
  }

  lemma CoreAvoids(p: Parts)
    requires WellFormed(p)
    ensures var numbers := [p.major, p.minor, p.patch];
            (forall x <- numbers :: '.' !in x) && '-' !in Join(numbers) && '+' !in Join(numbers)
  {
    var numbers := [p.major, p.minor, p.patch];
    NumeralAvoids(p.major);
    NumeralAvoids(p.minor);
    NumeralAvoids(p.patch);
    JoinAvoids(numbers, '-');
    JoinAvoids(numbers, '+');
  }

  lemma PrereleaseAvoids(p: Parts)
    requires WellFormed(p)
    ensures p.prerelease.Some? ==> forall x <- p.prerelease.value :: '.' !in x
    ensures '+' !in Precedence(p)
  {
    CoreAvoids(p);
    if p.prerelease.Some? {
      forall x <- p.prerelease.value ensures '.' !in x && '+' !in x {
        BuildIdentifierAvoids(x);
      }
      JoinAvoids(p.prerelease.value, '+');
    }
  }

  lemma BuildAvoids(p: Parts)
    requires WellFormed(p)
    ensures p.build.Some? ==> forall x <- p.build.value :: '.' !in x
  {
    if p.build.Some? {
      forall x <- p.build.value ensures '.' !in x {
        BuildIdentifierAvoids(x);
      }
    }
  }

  /** What the parser accepts is what the grammar writes. */
  lemma MatchIsGrammar(value: string)
    ensures Match(value).Some? ==> WellFormed(Match(value).value) && Render(Match(value).value) == value
    ensures Match(value).Some? <==> exists p :: WellFormed(p) && Render(p) == value
  {
    if Match(value).Some? {
      MatchRenders(value);
    }
    if p :| WellFormed(p) && Render(p) == value {
      MatchRender(p);
    }
  }

  lemma MatchRenders(value: string)
    requires Match(value).Some?
    ensures WellFormed(Match(value).value) && Render(Match(value).value) == value
  {
    hide Numeral, Identifier, BuildIdentifier, Split, Join, Lex.Partition;
    var (precedence, build) := Lex.Partition('+', value);
    var (core, prerelease) := Lex.Partition('-', precedence);
    var numbers := Split(core);
    assert numbers == [numbers[0], numbers[1], numbers[2]];
  }

  // ---------------------------------------------------------------- numerals

  lemma {:induction false} NumberPositive(s: string)
    requires Digits(s) && s[0] != '0'
    ensures Number(s) > 0
  {
    if |s| > 1 {
      NumberPositive(s[..|s| - 1]);
    }
  }

  lemma {:induction false} NumberInjective(a: string, b: string)
    requires a == [] || (Digits(a) && a[0] != '0')
    requires b == [] || (Digits(b) && b[0] != '0')
    requires Number(a) == Number(b)
    ensures a == b
  {
    if a == [] && b != [] {
      NumberPositive(b);
      assert false;
    } else if a != [] && b == [] {
      NumberPositive(a);
      assert false;
    } else if a != [] {
      var a0, b0 := a[..|a| - 1], b[..|b| - 1];
      assert Number(a0) == Number(b0) && a[|a| - 1] == b[|b| - 1];
      NumberInjective(a0, b0);
      assert a == a0 + [a[|a| - 1]] && b == b0 + [b[|b| - 1]];
    }
  }

  /** Without leading zeros, different numerals are different numbers. */
  lemma NumeralsAreNumbers(a: string, b: string)
    requires Numeral(a) && Numeral(b)
    ensures Number(a) == Number(b) <==> a == b
  {
    if Number(a) == Number(b) {
      if a[0] == '0' {
        assert a == "0";
        if b[0] != '0' { NumberPositive(b); }
      } else if b[0] == '0' {
        assert b == "0";
        NumberPositive(a);
      } else {
        NumberInjective(a, b);
      }
    }
  }

  /** The rule is needed: with a leading zero, comparing either way round claims the left is newer. */
  lemma LeadingZerosBreakTheOrder()
    ensures CompareItems("01", "1") == 1 && CompareItems("1", "01") == 1
  {
    assert Number("01") == 1 by { assert "01"[..1] == "0"; assert Number("0") == 0; }
    assert Number("1") == 1;
  }

  // ---------------------------------------------------------------- the order

  predicate Identifiers(xs: seq<string>) {
    forall x <- xs :: Identifier(x)
  }

  /** Section 11.4 on two identifiers: numerals by value, before any other; the rest by code point. */
  predicate ItemBelow(x: string, y: string) {
    if Digits(x) && Digits(y) then Number(x) < Number(y)
    else if Digits(x) || Digits(y) then Digits(x)
    else x != y && Lex.Le(x, y)
  }

  /** Section 11.4 on two lists: the first difference decides, and a longer list follows its own prefix. */
  predicate ListBelow(left: seq<string>, right: seq<string>) {
    exists k :: 0 <= k <= |left| && k <= |right| && left[..k] == right[..k] && DecidedAt(left, right, k)
  }

  predicate DecidedAt(left: seq<string>, right: seq<string>, k: nat)
    requires k <= |left| && k <= |right|
  {
    k < |right| && (k == |left| || ItemBelow(left[k], right[k]))
  }

  /** Section 11 of Semantic Versioning 2.0.0: core first, then a prerelease is below its release. */
  predicate Below(left: Version, right: Version) {
    if left.major != right.major then left.major < right.major
    else if left.minor != right.minor then left.minor < right.minor
    else if left.patch != right.patch then left.patch < right.patch
    else
      left.prerelease.Some? &&
      (right.prerelease.None? || ListBelow(left.prerelease.value, right.prerelease.value))
  }

  lemma ItemOrder(x: string, y: string)
    requires Identifier(x) && Identifier(y)
    ensures CompareItems(x, y) == -CompareItems(y, x)
    ensures CompareItems(x, y) == 0 <==> x == y
    ensures CompareItems(x, y) == -1 <==> ItemBelow(x, y)
  {
    if Digits(x) && Digits(y) {
      NumeralsAreNumbers(x, y);
    } else if !Digits(x) && !Digits(y) {
      LexOrder(x, y);
    }
  }

  lemma LexOrder(x: string, y: string)
    ensures Lex.Le(x, y) || Lex.Le(y, x)
    ensures Lex.Le(x, y) && Lex.Le(y, x) ==> x == y
  {
    Lex.LeTotal(x, y);
    if Lex.Le(x, y) && Lex.Le(y, x) {
      Lex.LeAntisymmetric(x, y);
    }
  }

  lemma ItemBelowTransitive(x: string, y: string, z: string)
    requires Identifier(x) && Identifier(y) && Identifier(z)
    requires ItemBelow(x, y) && ItemBelow(y, z)
    ensures ItemBelow(x, z)
  {
    if !Digits(x) && !Digits(y) && !Digits(z) {
      Lex.LeTransitive(x, y, z);
      LexOrder(x, y);
    }
  }

  lemma {:induction false} ListOrder(left: seq<string>, right: seq<string>)
    requires Identifiers(left) && Identifiers(right)
    ensures CompareLists(left, right) == -CompareLists(right, left)
    ensures CompareLists(left, right) == 0 <==> left == right
    ensures CompareLists(left, right) == -1 <==> ListBelow(left, right)
    ensures -1 <= CompareLists(left, right) <= 1
  {
    hide Identifier, CompareItems, ItemBelow;
    if left == [] || right == [] {
      if right != [] {
        assert DecidedAt(left, right, 0);
      }
    } else if left[0] == right[0] {
      ListOrder(left[1..], right[1..]);
      PeelBelow(left, right);
      assert left == [left[0]] + left[1..] && right == [right[0]] + right[1..];
    } else {
      DecideFirst(left, right);
    }
  }

  lemma DecideFirst(left: seq<string>, right: seq<string>)
    requires Identifiers(left) && Identifiers(right)
    requires left != [] && right != [] && left[0] != right[0]
    ensures CompareItems(left[0], right[0]) == -CompareItems(right[0], left[0])
    ensures CompareItems(left[0], right[0]) == -1 <==> ListBelow(left, right)
    ensures CompareItems(left[0], right[0]) in {-1, 1}
  {
    ItemOrder(left[0], right[0]);
    ItemOrder(right[0], left[0]);
    hide ItemBelow;
    if ItemBelow(left[0], right[0]) {
      assert DecidedAt(left, right, 0);
    }
    if ListBelow(left, right) {
      var k :| 0 <= k <= |left| && k <= |right| && left[..k] == right[..k] && DecidedAt(left, right, k);
      assert k == 0;
    }
  }

  lemma PeelBelow(left: seq<string>, right: seq<string>)
    requires left != [] && right != [] && left[0] == right[0]
    requires Identifiers(left)
    ensures ListBelow(left, right) <==> ListBelow(left[1..], right[1..])
  {
    var l, r := left[1..], right[1..];
    if ListBelow(left, right) {
      var k :| 0 <= k <= |left| && k <= |right| && left[..k] == right[..k] && DecidedAt(left, right, k);
      ItemIrreflexive(left[0]);
      assert k > 0;
      assert l[..k - 1] == left[..k][1..] && r[..k - 1] == right[..k][1..];
      assert DecidedAt(l, r, k - 1);
    }
    if ListBelow(l, r) {
      var k :| 0 <= k <= |l| && k <= |r| && l[..k] == r[..k] && DecidedAt(l, r, k);
      assert left[..k + 1] == [left[0]] + l[..k] && right[..k + 1] == [right[0]] + r[..k];
      assert DecidedAt(left, right, k + 1);
    }
  }

  lemma ItemIrreflexive(x: string)
    ensures !ItemBelow(x, x)
  {
  }

  lemma {:induction false} ListBelowTransitive(a: seq<string>, b: seq<string>, c: seq<string>)
    requires Identifiers(a) && Identifiers(b) && Identifiers(c)
    requires ListBelow(a, b) && ListBelow(b, c)
    ensures ListBelow(a, c)
  {
    hide Identifier, ItemBelow;
    if a == [] {
      assert c != [];
      assert DecidedAt(a, c, 0);
    } else if a[0] == b[0] && b[0] == c[0] {
      PeelBelow(a, b);
      PeelBelow(b, c);
      ListBelowTransitive(a[1..], b[1..], c[1..]);
      PeelBelow(a, c);
    } else {
      assert a[0] == b[0] || ItemBelow(a[0], b[0]) by { FirstDecides(a, b); }
      assert b[0] == c[0] || ItemBelow(b[0], c[0]) by { FirstDecides(b, c); }
      if ItemBelow(a[0], b[0]) && ItemBelow(b[0], c[0]) {
        ItemBelowTransitive(a[0], b[0], c[0]);
      }
      assert DecidedAt(a, c, 0);
    }
  }

  lemma FirstDecides(left: seq<string>, right: seq<string>)
    requires Identifiers(left) && Identifiers(right)
    requires left != [] && ListBelow(left, right)
    ensures right != [] && (left[0] == right[0] || ItemBelow(left[0], right[0]))
  {
    hide Identifier;
    if right != [] && left[0] != right[0] {
      DecideFirst(left, right);
      ItemOrder(left[0], right[0]);
    }
  }

  predicate Canonical(v: Version) {
    v.prerelease.Some? ==> Identifiers(v.prerelease.value)
  }

  lemma VersionOrder(a: Version, b: Version)
    requires Canonical(a) && Canonical(b)
    ensures CompareVersions(a, b) == -CompareVersions(b, a)
    ensures -1 <= CompareVersions(a, b) <= 1
    ensures CompareVersions(a, b) == 0 <==> a == b
    ensures CompareVersions(a, b) == -1 <==> Below(a, b)
  {
    hide ListBelow, CompareLists, Identifier;
    if a.prerelease.Some? && b.prerelease.Some? {
      ListOrder(a.prerelease.value, b.prerelease.value);
    }
  }

  lemma BelowTransitive(a: Version, b: Version, c: Version)
    requires Canonical(a) && Canonical(b) && Canonical(c)
    requires Below(a, b) && Below(b, c)
    ensures Below(a, c)
  {
    hide ListBelow, Identifier;
    if a.prerelease.Some? && b.prerelease.Some? && c.prerelease.Some?
      && ListBelow(a.prerelease.value, b.prerelease.value) && ListBelow(b.prerelease.value, c.prerelease.value)
    {
      ListBelowTransitive(a.prerelease.value, b.prerelease.value, c.prerelease.value);
    }
  }

  /** The development mark is `-dev` anywhere in the text, in any case. */
  lemma DevelopmentIff(value: string)
    ensures MarksDevelopment(value) <==>
            exists k :: 0 <= k <= |value| - 4 && value[k] == '-' && value[k + 1] in {'d', 'D'} && value[k + 2] in {'e', 'E'} && value[k + 3] in {'v', 'V'}
  {
    forall c: char ensures
        && (Lower(c) == 'd' <==> c in {'d', 'D'}) && (Lower(c) == 'e' <==> c in {'e', 'E'}) && (Lower(c) == 'v' <==> c in {'v', 'V'})
    {
      LowerOf(c);
    }
  }

  lemma LowerOf(c: char)
    ensures (Lower(c) == 'd' <==> c in {'d', 'D'}) && (Lower(c) == 'e' <==> c in {'e', 'E'}) && (Lower(c) == 'v' <==> c in {'v', 'V'})
  {
  }

  /** An orderable string is one the grammar writes without a development mark. */
  lemma OrderableIff(value: string)
    ensures ParseOrderable(value).Some? <==> !MarksDevelopment(value) && exists p :: WellFormed(p) && Render(p) == value
    ensures ParseOrderable(value).Some? ==> Canonical(ParseOrderable(value).value)
  {
    hide Match, Render, Identifier, Numeral, BuildIdentifier, MarksDevelopment;
    MatchIsGrammar(value);
  }

  /** The version read from a text is the one its grammar derivation names. */
  lemma ParseOfRender(p: Parts)
    requires WellFormed(p)
    ensures ParseOrderable(Render(p)) ==
            if MarksDevelopment(Render(p)) then None
            else Some(Version(Number(p.major), Number(p.minor), Number(p.patch), p.prerelease))
  {
    hide Match, Render, Identifier, Numeral, BuildIdentifier, MarksDevelopment, Number;
    MatchRender(p);
  }

  /** Two orderable strings have one version exactly when they agree up to the build metadata. */
  lemma SameVersion(a: string, b: string)
    requires ParseOrderable(a).Some? && ParseOrderable(b).Some?
    ensures ParseOrderable(a) == ParseOrderable(b) <==> Lex.Partition('+', a).0 == Lex.Partition('+', b).0
  {
    hide Match, Identifier, Numeral, BuildIdentifier, MarksDevelopment, Lex.Partition, Join, Suffix, Number;
    MatchIsGrammar(a);
    MatchIsGrammar(b);
    var p, q := Match(a).value, Match(b).value;
    MatchRender(p);
    MatchRender(q);
    NumeralsAreNumbers(p.major, q.major);
    NumeralsAreNumbers(p.minor, q.minor);
    NumeralsAreNumbers(p.patch, q.patch);
    if Precedence(p) == Precedence(q) {
      SamePrecedence(p, q);
    }
  }

  lemma SamePrecedence(p: Parts, q: Parts)
    requires WellFormed(p) && WellFormed(q) && Precedence(p) == Precedence(q)
    ensures p.major == q.major && p.minor == q.minor && p.patch == q.patch && p.prerelease == q.prerelease
  {
    hide Match, Identifier, Numeral, BuildIdentifier, Join;
    var p0, q0 := p.(build := None), q.(build := None);
    assert Render(p0) == Precedence(p) && Render(q0) == Precedence(q);
    MatchRender(p0);
    MatchRender(q0);
  }

  /**
   * On orderable strings the comparison is a total preorder: signs are opposite both ways round, it is
   * transitive, it is the precedence of section 11, and it is zero exactly when the texts agree up to the build metadata.
   */
  lemma ComparisonIsPrecedence(a: string, b: string, c: string)
    requires ParseOrderable(a).Some? && ParseOrderable(b).Some? && ParseOrderable(c).Some?
    ensures Compare(a, b).Some? && Compare(b, a).Some? && Compare(b, c).Some? && Compare(a, c).Some?
    ensures Compare(a, b).value == -Compare(b, a).value && -1 <= Compare(a, b).value <= 1
    ensures Compare(a, b).value == -1 <==> Below(ParseOrderable(a).value, ParseOrderable(b).value)
    ensures Compare(a, b).value == 0 <==> Lex.Partition('+', a).0 == Lex.Partition('+', b).0
    ensures Compare(a, b).value <= 0 && Compare(b, c).value <= 0 ==> Compare(a, c).value <= 0
  {
    hide ParseOrderable, Below, CompareVersions, Lex.Partition;
    OrderableIff(a);
    OrderableIff(b);
    OrderableIff(c);
    var x, y, z := ParseOrderable(a).value, ParseOrderable(b).value, ParseOrderable(c).value;
    VersionOrder(x, y);
    VersionOrder(y, z);
    VersionOrder(x, z);
    SameVersion(a, b);
    if Below(x, y) && Below(y, z) {
      BelowTransitive(x, y, z);
    }
  }
}
