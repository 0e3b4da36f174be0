/** Sequence operations that several services use. */
module Sequences {
  function Min(a: nat, b: nat): nat {
    if a < b then a else b
  }

  /** `filter(onlyUnique)`: each value at its first position. */
  function Unique<T(==)>(s: seq<T>): seq<T> {
    if s == [] then []
    else if s[|s| - 1] in s[..|s| - 1] then Unique(s[..|s| - 1])
    else Unique(s[..|s| - 1]) + [s[|s| - 1]]
  }

  lemma {:induction false} UniqueMembers<T>(s: seq<T>)
    ensures forall a :: a in Unique(s) <==> a in s
  {
    if s != [] {
      assert s == s[..|s| - 1] + [s[|s| - 1]];
      UniqueMembers(s[..|s| - 1]);
    }
  }

  lemma UniqueOneMore<T>(s: seq<T>, x: T)
    ensures Unique(s + [x]) == if x in s then Unique(s) else Unique(s) + [x]
  {
  }

  /** Removing duplicates page by page is removing them once. */
  lemma {:induction false} UniqueInTwoGoes<T>(a: seq<T>, b: seq<T>)
    ensures Unique(Unique(a) + b) == Unique(a + b)
  {
    if b == [] {
      assert Unique(a) + b == Unique(a) && a + b == a;
      UniqueTwice(a);
    } else {
      var before, x := b[..|b| - 1], b[|b| - 1];
      UniqueInTwoGoes(a, before);
      UniqueMembers(a);
      var one, two := a + before, Unique(a) + before;
      assert a + b == one + [x] && Unique(a) + b == two + [x];
      UniqueOneMore(one, x);
      UniqueOneMore(two, x);
    }
  }

  lemma {:induction false} UniqueTwice<T>(a: seq<T>)
    ensures Unique(Unique(a)) == Unique(a)
  {
    if a != [] {
      var before, x := a[..|a| - 1], a[|a| - 1];
      UniqueTwice(before);
      UniqueMembers(before);
      if x !in before {
        assert (Unique(before) + [x])[..|Unique(before)|] == Unique(before);
      }
    }
  }

  /** The number of unique values is the size of the set of values. */
  lemma {:induction false} UniqueCounts<T>(s: seq<T>)
    ensures |Unique(s)| == |set a | a in s|
  {
    if s != [] {
      var before, x := s[..|s| - 1], s[|s| - 1];
      assert s == before + [x];
      UniqueCounts(before);
      var all, most := set a | a in s, set a | a in before;
      assert all == most + {x};
      if x in before { assert all == most; }
    }
  }
}
