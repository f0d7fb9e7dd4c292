/** Java's String.compareTo, the sorting of strings that the interning keys
    rely on, and the delimited concatenation that builds those keys. */
module Strings {

  /** The sign of Java's String.compareTo: characters are compared left to
      right, and a proper prefix sorts before the longer string. */
  function Compare(a: string, b: string): (r: int)
    ensures -1 <= r <= 1
  {
    if a == [] then (if b == [] then 0 else -1)
    else if b == [] then 1
    else if a[0] < b[0] then -1
    else if a[0] > b[0] then 1
    else Compare(a[1..], b[1..])
  }

  predicate Le(a: string, b: string) {
    Compare(a, b) <= 0
  }

  /** compareTo is zero exactly on equal strings. */
  lemma {:induction false} CompareZero(a: string, b: string)
    ensures Compare(a, b) == 0 <==> a == b
  {
    if a != [] && b != [] && a[0] == b[0] {
      CompareZero(a[1..], b[1..]);
      assert a == [a[0]] + a[1..] && b == [b[0]] + b[1..];
    }
  }

  /** compareTo is antisymmetric in sign. */
  lemma {:induction false} CompareFlip(a: string, b: string)
    ensures Compare(a, b) == -Compare(b, a)
  {
    if a != [] && b != [] && a[0] == b[0] {
      CompareFlip(a[1..], b[1..]);
    }
  }

  lemma {:induction false} CompareTrans(a: string, b: string, c: string)
    requires Le(a, b) && Le(b, c)
    ensures Le(a, c)
  {
    if a != [] && b != [] && c != [] && a[0] == b[0] == c[0] {
      CompareTrans(a[1..], b[1..], c[1..]);
    }
  }

  /** Le is a total order on strings. */
  lemma LeTotal(a: string, b: string)
    ensures Le(a, b) || Le(b, a)
    ensures Le(a, b) && Le(b, a) ==> a == b
  {
    CompareFlip(a, b);
    CompareZero(a, b);
  }

  predicate Sorted(s: seq<string>) {
    forall i, j :: 0 <= i < j < |s| ==> Le(s[i], s[j])
  }

  /** Places x into the sorted sequence s. */
  function Insert(x: string, s: seq<string>): (r: seq<string>)
    requires Sorted(s)
    ensures Sorted(r) && multiset(r) == multiset(s) + multiset{x}
  {
    if s == [] then [x]
    else if Le(x, s[0]) then
      InsertFront(x, s);
      [x] + s
    else
      LeTotal(x, s[0]);
      var rest := Insert(x, s[1..]);
      InsertBehind(x, s, rest);
      [s[0]] + rest
  }

  lemma InsertFront(x: string, s: seq<string>)
    requires Sorted(s) && s != [] && Le(x, s[0])
    ensures Sorted([x] + s) && multiset([x] + s) == multiset(s) + multiset{x}
  {
    var r := [x] + s;
    forall i, j | 0 <= i < j < |r| ensures Le(r[i], r[j]) {
      if i == 0 && j > 1 {
        CompareTrans(x, s[0], s[j - 1]);
      }
    }
  }

  lemma InsertBehind(x: string, s: seq<string>, rest: seq<string>)
    requires Sorted(s) && s != [] && Le(s[0], x)
    requires Sorted(rest) && multiset(rest) == multiset(s[1..]) + multiset{x}
    ensures Sorted([s[0]] + rest) && multiset([s[0]] + rest) == multiset(s) + multiset{x}
  {
    assert s == [s[0]] + s[1..];
    forall y | y in rest ensures Le(s[0], y) {
      assert y in multiset(rest);
      if y != x {
        var k :| 0 <= k < |s[1..]| && s[1..][k] == y;
        assert s[k + 1] == y;
      }
    }
    var r := [s[0]] + rest;
    forall i, j | 0 <= i < j < |r| ensures Le(r[i], r[j]) {
      if i == 0 {
        assert r[j] == rest[j - 1] && rest[j - 1] in rest;
      } else {
        assert r[i] == rest[i - 1] && r[j] == rest[j - 1];
      }
    }
  }

  /** The strings of s in ascending order, as Java's sorted() stream yields them. */
  function Sort(s: seq<string>): (r: seq<string>)
    ensures Sorted(r) && multiset(r) == multiset(s)
  {
    if s == [] then []
    else
      assert s == [s[0]] + s[1..];
      Insert(s[0], Sort(s[1..]))
  }

  lemma SortedHeadLeast(a: seq<string>, x: string)
    requires Sorted(a) && x in a
    ensures Le(a[0], x)
  {
    var k :| 0 <= k < |a| && a[k] == x;
    if k == 0 { CompareZero(a[0], x); }
  }

  lemma SortedTail(a: seq<string>)
    requires Sorted(a) && a != []
    ensures Sorted(a[1..])
    ensures multiset(a[1..]) == multiset(a) - multiset{a[0]}
  {
    assert a == [a[0]] + a[1..];
  }

  /** Two sorted sequences with the same elements are the same sequence. */
  lemma {:induction false} SortedUnique(a: seq<string>, b: seq<string>)
    requires Sorted(a) && Sorted(b) && multiset(a) == multiset(b)
    ensures a == b
  {
    assert |a| == |multiset(a)| == |multiset(b)| == |b|;
    if a != [] {
      assert a[0] in multiset(b) && b[0] in multiset(a);
      SortedHeadLeast(b, a[0]);
      SortedHeadLeast(a, b[0]);
      LeTotal(a[0], b[0]);
      SortedTail(a);
      SortedTail(b);
      SortedUnique(a[1..], b[1..]);
      assert a == [a[0]] + a[1..] && b == [b[0]] + b[1..];
    }
  }

  /** Sorting forgets the order in which the strings arrived. */
  lemma SortOrderIndependent(a: seq<string>, b: seq<string>)
    requires multiset(a) == multiset(b)
    ensures Sort(a) == Sort(b)
  {
    SortedUnique(Sort(a), Sort(b));
  }

  /** Each string followed by sep, all concatenated (a StringBuilder
      appending item then delimiter). */
  function Terminated(xs: seq<string>, sep: char): string {
    if xs == [] then [] else xs[0] + [sep] + Terminated(xs[1..], sep)
  }

  /** Appending one more string to the builder. */
  lemma {:induction false} TerminatedAppend(xs: seq<string>, x: string, sep: char)
    ensures Terminated(xs + [x], sep) == Terminated(xs, sep) + x + [sep]
  {
    if xs != [] {
      TerminatedAppend(xs[1..], x, sep);
      assert (xs + [x])[1..] == xs[1..] + [x];
    } else {
      assert xs + [x] == [x];
    }
  }

  /** The builder after one more string of xs. */
  lemma TerminatedPrefix(xs: seq<string>, i: int, sep: char)
    requires 0 <= i < |xs|
    ensures Terminated(xs[..i + 1], sep) == Terminated(xs[..i], sep) + xs[i] + [sep]
  {
    TerminatedAppend(xs[..i], xs[i], sep);
    assert xs[..i + 1] == xs[..i] + [xs[i]];
  }

  lemma FirstSeparator(u: string, v: string, w: string, z: string, sep: char)
    requires sep !in u && sep !in w
    requires u + [sep] + v == w + [sep] + z
    ensures u == w && v == z
  {
    var s := u + [sep] + v;
    assert forall i :: 0 <= i < |u| ==> s[i] == u[i] != sep;
    assert forall i :: 0 <= i < |w| ==> s[i] == w[i] != sep;
    assert s[|u|] == sep && s[|w|] == sep;
    assert |u| == |w|;
    assert u == s[..|u|] && w == s[..|w|];
    assert v == s[|u| + 1..] && z == s[|w| + 1..];
  }

  lemma TerminatedEmpty(xs: seq<string>, sep: char)
    ensures Terminated(xs, sep) == [] <==> xs == []
  {
  }

  /** When no string contains the delimiter, the terminated concatenation
      can be split back: it determines the sequence. */
  lemma {:induction false} TerminatedInjective(xs: seq<string>, ys: seq<string>, sep: char)
    requires forall i :: 0 <= i < |xs| ==> sep !in xs[i]
    requires forall i :: 0 <= i < |ys| ==> sep !in ys[i]
    requires Terminated(xs, sep) == Terminated(ys, sep)
    ensures xs == ys
  {
    if xs == [] || ys == [] {
      TerminatedEmpty(xs, sep);
      TerminatedEmpty(ys, sep);
    } else {
      FirstSeparator(xs[0], Terminated(xs[1..], sep), ys[0], Terminated(ys[1..], sep), sep);
      TerminatedInjective(xs[1..], ys[1..], sep);
      assert xs == [xs[0]] + xs[1..] && ys == [ys[0]] + ys[1..];
    }
  }
}
