/** Strings: order by code point, as `str` comparison has it, and splitting at a character. */
module Lex {
  import opened Domain

  predicate Le(a: string, b: string) {
    a == [] || (b != [] && (a[0] < b[0] || (a[0] == b[0] && Le(a[1..], b[1..]))))
  }

  lemma {:induction false} LeReflexive(a: string)
    ensures Le(a, a)
  {
    if a != [] {
      LeReflexive(a[1..]);
    }
  }

  lemma {:induction false} LeTotal(a: string, b: string)
    ensures Le(a, b) || Le(b, a)
  {
    if a != [] && b != [] && a[0] == b[0] {
      LeTotal(a[1..], b[1..]);
    }
  }

  lemma {:induction false} LeAntisymmetric(a: string, b: string)
    requires Le(a, b) && Le(b, a)
    ensures a == b
  {
    if a != [] {
      LeAntisymmetric(a[1..], b[1..]);
      assert a == [a[0]] + a[1..] && b == [b[0]] + b[1..];
    }
  }

  lemma {:induction false} LeTransitive(a: string, b: string, c: string)
    requires Le(a, b) && Le(b, c)
    ensures Le(a, c)
  {
    if a != [] && a[0] == b[0] == c[0] {
      LeTransitive(a[1..], b[1..], c[1..]);
    }
  }

  /** The first difference decides, and a text follows its own prefixes. */
  lemma {:induction false} LeIff(a: string, b: string)
    ensures Le(a, b) <==>
            || a <= b
            || exists k :: 0 <= k < |a| && k < |b| && a[..k] == b[..k] && a[k] < b[k]
  {
    if a != [] && b != [] && a[0] == b[0] {
      var x, y := a[1..], b[1..];
      LeIff(x, y);
      assert a == [a[0]] + x && b == [b[0]] + y;
      if x <= y {
        assert a <= b;
      }
      if k :| 0 <= k < |x| && k < |y| && x[..k] == y[..k] && x[k] < y[k] {
        assert a[..k + 1] == [a[0]] + x[..k] && b[..k + 1] == [b[0]] + y[..k];
        assert a[k + 1] < b[k + 1];
      }
      if k :| 0 <= k < |a| && k < |b| && a[..k] == b[..k] && a[k] < b[k] {
        assert k > 0;
        assert x[..k - 1] == a[..k][1..] && y[..k - 1] == b[..k][1..];
        assert x[k - 1] < y[k - 1];
      }
    } else if a != [] && b != [] && a[0] < b[0] {
      assert a[..0] == b[..0];
    } else if a != [] && b != [] {
      forall k | 0 < k < |a| && k < |b| ensures a[..k] != b[..k] {
        assert a[..k][0] != b[..k][0];
      }
    }
  }

  predicate Sorted(s: seq<string>) {
    forall j, k :: 0 <= j < k < |s| ==> Le(s[j], s[k])
  }

  function Insert(x: string, s: seq<string>): seq<string> {
    if s == [] || Le(x, s[0]) then [x] + s else [s[0]] + Insert(x, s[1..])
  }

  function Sort(s: seq<string>): seq<string> {
    if s == [] then [] else Insert(s[0], Sort(s[1..]))
  }

  lemma {:induction false} InsertSorts(x: string, s: seq<string>)
    requires Sorted(s)
    ensures Sorted(Insert(x, s)) && multiset(Insert(x, s)) == multiset(s) + multiset{x}
  {
    if s == [] {
    } else if Le(x, s[0]) {
      forall k | 0 <= k < |s| ensures Le(x, s[k]) {
        if k > 0 {
          LeTransitive(x, s[0], s[k]);
        }
      }
    } else {
      LeTotal(x, s[0]);
      InsertSorts(x, s[1..]);
      var rest := Insert(x, s[1..]);
      assert s == [s[0]] + s[1..];
      forall k | 0 <= k < |rest| ensures Le(s[0], rest[k]) {
        assert rest[k] in multiset(rest);
        assert rest[k] == x || rest[k] in s[1..];
      }
    }
  }

  lemma {:induction false} SortSorts(s: seq<string>)
    ensures Sorted(Sort(s)) && multiset(Sort(s)) == multiset(s)
  {
    if s != [] {
      SortSorts(s[1..]);
      InsertSorts(s[0], Sort(s[1..]));
      assert s == [s[0]] + s[1..];
    }
  }

  // ---------------------------------------------------------------- splitting

  /** The text before the first `c`, and the text after it if there is one. */
  function Partition(c: char, s: string): (r: (string, Option<string>))
    ensures c !in r.0 && |r.0| <= |s| && (r.1.Some? ==> |r.1.value| < |s|)
    ensures s == r.0 + (if r.1.None? then "" else [c] + r.1.value)
  {
    if s == [] then ("", None)
    else if s[0] == c then ("", Some(s[1..]))
    else
      var (head, tail) := Partition(c, s[1..]);
      ([s[0]] + head, tail)
  }

  lemma PartitionSteps(c: char, x: char, s: string)
    requires x != c
    ensures Partition(c, [x] + s) == ([x] + Partition(c, s).0, Partition(c, s).1)
  {
    assert ([x] + s)[1..] == s;
  }

  lemma PartitionStops(c: char, s: string)
    ensures Partition(c, [c] + s) == ("", Some(s)) && Partition(c, "") == ("", None)
  {
    assert ([c] + s)[1..] == s;
  }

  lemma {:induction false} PartitionAt(c: char, head: string, tail: Option<string>)
    requires c !in head
    ensures Partition(c, head + (if tail.None? then "" else [c] + tail.value)) == (head, tail)
  {
    hide Partition;
    var end := if tail.None? then "" else [c] + tail.value;
    if head == [] {
      PartitionStops(c, if tail.None? then "" else tail.value);
      assert head + end == end;
    } else {
      PartitionAt(c, head[1..], tail);
      PartitionSteps(c, head[0], head[1..] + end);
      assert head + end == [head[0]] + (head[1..] + end);
      assert [head[0]] + head[1..] == head;
    }
  }
}
