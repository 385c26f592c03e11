/** Small vocabulary shared by the component models. */
module Common {

  datatype Option<+T> = None | Some(value: T)

  ghost predicate NoDup<T>(s: seq<T>) {
    forall i, j :: 0 <= i < j < |s| ==> s[i] != s[j]
  }

  ghost function Elements<T(!new)>(s: seq<T>): (r: set<T>)
    ensures forall x :: x in r <==> x in s
  {
    set x | x in s
  }

  lemma {:induction false} NoDupSize<T(!new)>(s: seq<T>)
    requires NoDup(s)
    ensures |Elements(s)| == |s|
  {
    if s != [] {
      var init := s[..|s| - 1];
      NoDupSize(init);
      assert s == init + [s[|s| - 1]];
      assert Elements(s) == Elements(init) + {s[|s| - 1]};
    } else {
      assert Elements(s) == {};
    }
  }

  lemma SubsetSize<T>(a: set<T>, b: set<T>)
    requires a <= b
    ensures |a| <= |b|
    ensures |a| == |b| ==> a == b
  {
    assert b == a + (b - a);
    assert |b| == |a| + |b - a|;
  }
}
