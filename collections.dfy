/** Iteration over Java's hash-based sets and maps, whose order the model
    does not fix. */
module Collections {

  /** Some order in which a set can be visited. */
  ghost function Enumeration<T>(s: set<T>): (xs: seq<T>)
    ensures multiset(xs) == multiset(s)
    decreases |s|
  {
    if s == {} then []
    else
      var x :| x in s;
      var rest := Enumeration(s - {x});
      assert multiset(s - {x}) + multiset{x} == multiset(s) by {
        assert s == (s - {x}) + {x};
      }
      [x] + rest
  }

  /** Visits every element of s once, in an order the model leaves open
      (the iteration order of a HashSet). */
  method Enumerate<T>(s: set<T>) returns (xs: seq<T>)
    ensures multiset(xs) == multiset(s)
  {
    xs := [];
    var rest := s;
    while rest != {}
      invariant rest <= s
      invariant multiset(xs) + multiset(rest) == multiset(s)
      decreases |rest|
    {
      var x :| x in rest;
      assert multiset(rest - {x}) + multiset{x} == multiset(rest) by {
        assert rest == (rest - {x}) + {x};
      }
      xs := xs + [x];
      rest := rest - {x};
    }
  }

  lemma EnumerationMembers<T>(xs: seq<T>, s: set<T>)
    requires multiset(xs) == multiset(s)
    ensures |xs| == |s|
    ensures forall x :: x in xs <==> x in s
  {
    assert |xs| == |multiset(xs)| == |multiset(s)| == |s|;
    forall x ensures x in xs <==> x in s {
      assert x in xs <==> x in multiset(xs);
    }
  }

  /** A set that gains an element of the universe leaves fewer elements of
      the universe outside it. */
  lemma Shrinks<T>(u: set<T>, a: set<T>, b: set<T>, k: T)
    requires a <= b && k in u && k in b && k !in a
    ensures |u - b| < |u - a|
  {
    var gone := (u - a) - (u - b);
    assert k in gone;
    assert u - a == (u - b) + gone;
    assert (u - b) * gone == {};
  }

  /** The same, for a set that grows inside the universe. */
  lemma GrowsWithin<T>(u: set<T>, a: set<T>, b: set<T>)
    requires a <= b <= u && a != b
    ensures |u - b| < |u - a|
  {
    var k :| k in b && k !in a;
    Shrinks(u, a, b, k);
  }
}
