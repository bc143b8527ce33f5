/** What several components share. */
module Basics {
  const TWO_32: nat := 0x1_0000_0000

  type Task = nat

  datatype Option<T> = None | Some(value: T)

  ghost predicate Distinct<T>(s: seq<T>) {
    forall i, j :: 0 <= i < j < |s| ==> s[i] != s[j]
  }

  /** A list with a new item put in anywhere. */
  lemma SplicedMembers<T>(s: seq<T>, k: nat, x: T)
    requires k <= |s| && Distinct(s) && x !in s
    ensures var r := s[..k] + [x] + s[k..];
            Distinct(r) && forall y :: y in r <==> y in s || y == x
  {
    var r := s[..k] + [x] + s[k..];
    forall i, j | 0 <= i < j < |r| ensures r[i] != r[j] {
      assert r[i] == if i < k then s[i] else if i == k then x else s[i - 1];
      assert r[j] == if j < k then s[j] else if j == k then x else s[j - 1];
    }
    assert s == s[..k] + s[k..];
  }

  /** A list with one item taken out. */
  lemma CutMembers<T>(s: seq<T>, i: nat)
    requires i < |s| && Distinct(s)
    ensures var r := s[..i] + s[i + 1..];
            Distinct(r) && forall y :: y in r <==> y in s && y != s[i]
  {
    var r := s[..i] + s[i + 1..];
    assert forall j :: 0 <= j < |r| ==> r[j] == s[if j < i then j else j + 1];
    assert s == s[..i] + [s[i]] + s[i + 1..];
  }
}
