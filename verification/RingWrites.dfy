/** Writing into a ring: a stretch of memory that goes on at its start when it has come to its end. */
module RingWrites {
  /** The position i bytes after `at` in a ring of n bytes. */
  function At(at: nat, i: nat, n: nat): (p: nat)
    requires at < n && i <= n
    ensures p < n
  {
    if at + i >= n then at + i - n else at + i
  }

  /** `data` has been written at `at`, and nothing else has been touched. */
  ghost predicate Written<T>(before: seq<T>, after: seq<T>, at: nat, data: seq<T>) {
    && |after| == |before| && at < |before| && |data| <= |before|
    && (forall i :: 0 <= i < |data| ==> after[At(at, i, |before|)] == data[i])
    && (forall p :: 0 <= p < |before| && (forall i :: 0 <= i < |data| ==> p != At(at, i, |before|)) ==> after[p] == before[p])
  }

  /** Written in two parts: one write after the other. */
  lemma WrittenTwice<T>(a: seq<T>, b: seq<T>, c: seq<T>, at: nat, x: seq<T>, y: seq<T>)
    requires Written(a, b, at, x) && |x| + |y| < |a| && Written(b, c, At(at, |x|, |a|), y)
    ensures Written(a, c, at, x + y)
  {
    var n, mid := |a|, At(at, |x|, |a|);
    forall i | 0 <= i < |y| ensures At(mid, i, n) == At(at, |x| + i, n) {}
    forall i | 0 <= i < |x + y| ensures c[At(at, i, n)] == (x + y)[i] {
      if i < |x| {
        assert forall j :: 0 <= j < |y| ==> At(at, i, n) != At(mid, j, n);
      } else {
        assert At(mid, i - |x|, n) == At(at, i, n);
      }
    }
    forall p | 0 <= p < n && (forall i :: 0 <= i < |x + y| ==> p != At(at, i, n)) ensures c[p] == a[p] {
      forall i | 0 <= i < |x| ensures p != At(at, i, n) {}
      forall i | 0 <= i < |y| ensures p != At(mid, i, n) { assert At(mid, i, n) == At(at, |x| + i, n); }
    }
  }
}
