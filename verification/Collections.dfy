/** Facts about sequences without repetition and the sizes of sets. */
module Collections {

  ghost predicate Distinct<T>(s: seq<T>) {
    forall i, j :: 0 <= i < j < |s| ==> s[i] != s[j]
  }

  lemma SubsetSize<T>(a: set<T>, b: set<T>)
    requires a <= b
    ensures |a| <= |b|
  {
    assert b == a + (b - a);
  }

  lemma {:induction false} DistinctSize<T>(s: seq<T>)
    requires Distinct(s)
    ensures |set x | x in s| == |s|
  {
    var all := set x | x in s;
    if s == [] {
      assert all == {};
    } else {
      var rest := set x | x in s[1..];
      DistinctSize(s[1..]);
      assert s[0] !in s[1..];
      assert all == rest + {s[0]};
    }
  }

  lemma EqualBySize<T>(a: seq<T>, b: seq<T>)
    requires Distinct(a) && Distinct(b)
    requires |a| == |b| && forall x :: x in b ==> x in a
    ensures forall x :: x in a ==> x in b
  {
    var sa, sb := set x | x in a, set x | x in b;
    DistinctSize(a);
    DistinctSize(b);
    forall x | x in a ensures x in b {
      if x !in b {
        SubsetSize(sb + {x}, sa);
      }
    }
  }
}
