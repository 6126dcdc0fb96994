/** Lists read as sets. */
module Sets {
  predicate Distinct<T(==)>(s: seq<T>) {
    forall i, j | 0 <= i < j < |s| :: s[i] != s[j]
  }

  function AsSet<T>(s: seq<T>): set<T> {
    set x | x in s
  }

  /** A list is as long as its set exactly when its entries are distinct. */
  lemma {:induction false} SetSize<T>(s: seq<T>)
    ensures |AsSet(s)| <= |s|
    ensures |AsSet(s)| == |s| <==> Distinct(s)
  {
    if s != [] {
      SetSize(s[1..]);
      assert AsSet(s) == {s[0]} + AsSet(s[1..]);
      if s[0] in s[1..] {
        assert AsSet(s) == AsSet(s[1..]);
        var j :| 0 <= j < |s[1..]| && s[1..][j] == s[0];
        assert s[j + 1] == s[0];
      } else {
        DistinctTail(s);
      }
    }
  }

  lemma DistinctTail<T>(s: seq<T>)
    requires s != [] && s[0] !in s[1..]
    ensures Distinct(s) <==> Distinct(s[1..])
  {
    if Distinct(s[1..]) {
      forall i, j | 0 <= i < j < |s| ensures s[i] != s[j] {
        assert s[j] == s[1..][j - 1];
        if i > 0 { assert s[i] == s[1..][i - 1]; }
      }
    }
  }

  lemma SubsetSize<T>(a: set<T>, b: set<T>)
    requires a <= b
    ensures |b - a| == |b| - |a| && |a| <= |b| && (|a| == |b| ==> a == b)
  {
    assert b == a + (b - a);
  }
}
