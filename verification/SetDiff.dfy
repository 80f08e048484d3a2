/** internal/utils/utils.go: equality and differences of lists seen as sets, and of maps. A Go `map[A]struct{}`
    is a map to the unit value; ranging over a map takes its entries in any order. */
module SetDiff {

  /** struct{}. */
  datatype Unit = Unit

  function Elems<A>(arr: seq<A>): set<A> {
    set x | x in arr
  }

  predicate NoDuplicates<A(==)>(arr: seq<A>) {
    forall i, j | 0 <= i < j < |arr| :: arr[i] != arr[j]
  }

  method ArrayToSet<A(==)>(arr: seq<A>) returns (s: map<A, Unit>)
    ensures s.Keys == Elems(arr)
  {
    s := map[];
    for i := 0 to |arr|
      invariant s.Keys == Elems(arr[..i])
    {
      s := s[arr[i] := Unit];
      assert arr[..i + 1] == arr[..i] + [arr[i]];
    }
    assert arr[..|arr|] == arr;
  }

  method SetToArray<A(==)>(s: map<A, Unit>) returns (arr: seq<A>)
    ensures NoDuplicates(arr) && Elems(arr) == s.Keys && |arr| == |s|
  {
    arr := [];
    var rest := s.Keys;
    while rest != {}
      invariant rest <= s.Keys && Elems(arr) == s.Keys - rest
      invariant NoDuplicates(arr) && |arr| + |rest| == |s.Keys|
      decreases |rest|
    {
      var item :| item in rest;
      assert Elems(arr + [item]) == Elems(arr) + {item};
      arr := arr + [item];
      rest := rest - {item};
    }
  }

  /** The entries of `m1` that `m2` does not have, or has with another value. */
  function Diff<K, V(==)>(m1: map<K, V>, m2: map<K, V>): map<K, V> {
    map k | k in m1 && (k !in m2 || m1[k] != m2[k]) :: m1[k]
  }

  method MapDiff<K(==), V(==)>(m1: map<K, V>, m2: map<K, V>) returns (d: map<K, V>)
    ensures d == Diff(m1, m2)
  {
    d := map[];
    var rest := m1.Keys;
    while rest != {}
      invariant rest <= m1.Keys
      invariant d == map k | k in m1 && k !in rest && (k !in m2 || m1[k] != m2[k]) :: m1[k]
      decreases |rest|
    {
      var key :| key in rest;
      rest := rest - {key};
      if key !in m2 || m1[key] != m2[key] {
        d := d[key := m1[key]];
      }
    }
  }

  lemma SameSizeSubset<A>(x: set<A>, y: set<A>)
    requires |x| == |y| && x <= y
    ensures x == y
  {
    assert |y - x| == |y| - |x|;
  }

  lemma SameSizeNoDiff<K, V>(m1: map<K, V>, m2: map<K, V>)
    requires |m1| == |m2| && |Diff(m1, m2)| == 0
    ensures m1 == m2
  {
    forall k | k in m1
      ensures k in m2 && m1[k] == m2[k]
    {
      assert k !in Diff(m1, m2);
    }
    SameSizeSubset(m1.Keys, m2.Keys);
  }

  lemma SetDiffKeys<A>(m1: map<A, Unit>, m2: map<A, Unit>)
    ensures Diff(m1, m2).Keys == m1.Keys - m2.Keys
  {
    forall k | k in m1 && k in m2
      ensures k !in Diff(m1, m2)
    {
      assert m1[k].Unit? && m2[k].Unit?;
    }
  }

  /** arraysEqualWithDifference; `left` is meaningful only when `hasLeft`. */
  method ArraysEqualWithDifference<A(==)>(arr1: seq<A>, arr2: seq<A>)
      returns (isEqual: bool, set1: map<A, Unit>, set2: map<A, Unit>, hasLeft: bool, left: map<A, Unit>)
    ensures isEqual <==> Elems(arr1) == Elems(arr2)
    ensures set1.Keys == Elems(arr1) && set2.Keys == Elems(arr2)
    ensures hasLeft ==> left == Diff(set1, set2)
  {
    set1 := ArrayToSet(arr1);
    set2 := ArrayToSet(arr2);
    if |set1| != |set2| {
      return false, set1, set2, false, map[];
    }
    left := MapDiff(set1, set2);
    if |left| != 0 {
      SetDiffKeys(set1, set2);
      var k :| k in left;
      assert k in set1.Keys - set2.Keys;
      return false, set1, set2, true, left;
    }
    SameSizeNoDiff(set1, set2);
    return true, set1, set2, false, map[];
  }

  /** ArraysEqual decides equality as sets, with duplicates and in any order. */
  method ArraysEqual<A(==)>(arr1: seq<A>, arr2: seq<A>) returns (isEqual: bool)
    ensures isEqual <==> Elems(arr1) == Elems(arr2)
  {
    var s1, s2, h, l;
    isEqual, s1, s2, h, l := ArraysEqualWithDifference(arr1, arr2);
  }

  lemma Patched<A>(x: set<A>, y: set<A>)
    ensures y - (y - x) + (x - y) == x
  {}

  /** ArraysBothDiff: both exact differences, without duplicates, on either of its short cuts. */
  method ArraysBothDiff<A(==)>(arr1: seq<A>, arr2: seq<A>) returns (isEqual: bool, left: seq<A>, right: seq<A>)
    ensures isEqual <==> Elems(arr1) == Elems(arr2)
    ensures Elems(left) == Elems(arr1) - Elems(arr2) && NoDuplicates(left)
    ensures Elems(right) == Elems(arr2) - Elems(arr1) && NoDuplicates(right)
    ensures isEqual ==> left == [] && right == []
    ensures Elems(arr2) - Elems(right) + Elems(left) == Elems(arr1)
  {
    hide Diff;
    var equal, set1, set2, hasLeft, leftDifference := ArraysEqualWithDifference(arr1, arr2);
    if equal {
      return true, [], [];
    }
    if !hasLeft {
      leftDifference := MapDiff(set1, set2);
    }
    var rightDifference := MapDiff(set2, set1);
    SetDiffKeys(set1, set2);
    SetDiffKeys(set2, set1);
    left := SetToArray(leftDifference);
    right := SetToArray(rightDifference);
    Patched(Elems(arr1), Elems(arr2));
    return false, left, right;
  }

  /** MapsBothDiff gets its equality flag right, and never reports a difference. */
  method MapsBothDiff<K(==), V(==)>(map1: map<K, V>, map2: map<K, V>)
      returns (isEqual: bool, onlyIn1: map<K, V>, onlyIn2: map<K, V>)
    ensures isEqual <==> map1 == map2
    ensures onlyIn1 == map[] && onlyIn2 == map[]
  {
    var leftDifference := MapDiff(map1, map2);
    if |leftDifference| != 0 || |map1| != |map2| {
      if |leftDifference| != 0 {
        var k :| k in leftDifference;
        assert k !in map2 || map1[k] != map2[k];
      }
      return false, map[], map[];
    }
    SameSizeNoDiff(map1, map2);
    var rightDifference := MapDiff(map2, map1);
    return true, leftDifference, rightDifference;
  }
}
