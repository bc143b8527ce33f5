/** The value of a kernel list (FreeRtos/kernel/list.c), free of pointers.

A list is a ring of items closed by an end marker, with an index that walks round it.
`index == 0` stands for the end marker; `index == i + 1` stands for `items[i]`.
The linked lists of module IntrusiveList are proved to behave as these values do, and
the scheduler's ready lists are rings.
*/
module Rings {
  import opened Basics

  const TICK_MOD: nat := TWO_32
  const MAX_DELAY: nat := TICK_MOD - 1

  datatype Ring<T> = Ring(items: seq<T>, index: nat) {

    ghost predicate WellFormed() {
      index <= |items|
    }

    /** vListInsert once its loop has found that `k` items stay in front. */
    function InsertAt(k: nat, x: T): Ring<T>
      requires k <= |items|
    {
      Ring(items[..k] + [x] + items[k..], if index > k then index + 1 else index)
    }

    /** Where vListInsertEnd puts a new item: just behind the index. */
    function EndPosition(): nat
      requires index <= |items|
    {
      if index == 0 then |items| else index - 1
    }

    function InsertEnd(x: T): Ring<T>
      requires index <= |items|
    {
      InsertAt(EndPosition(), x)
    }

    /** uxListRemove of the item at `k`; an index on that item steps back. */
    function RemoveAt(k: nat): Ring<T>
      requires k < |items|
    {
      Ring(items[..k] + items[k + 1..], if index > k then index - 1 else index)
    }

    /** listGET_OWNER_OF_NEXT_ENTRY: the next item, passing over the end marker. */
    function Next(): (r: Ring<T>)
      requires items != [] && index <= |items|
      ensures r.items == items && 1 <= r.index <= |items|
    {
      Ring(items, if index == |items| then 1 else index + 1)
    }

    function Indexed(): T
      requires 1 <= index <= |items|
    {
      items[index - 1]
    }
  }

  /** Taking a just inserted item out again restores the ring, index included. */
  lemma RemoveUndoesInsert<T>(r: Ring<T>, k: nat, x: T)
    requires r.WellFormed() && k <= |r.items|
    ensures r.InsertAt(k, x).WellFormed()
    ensures r.InsertAt(k, x).items[k] == x
    ensures r.InsertAt(k, x).RemoveAt(k) == r
  {
    assert r.InsertAt(k, x).RemoveAt(k).items == r.items;
  }

  // ---------------------------------------------------------------- sorted insertion

  /** How many leading values the loop of vListInsert walks past. */
  function InsertPosition(values: seq<nat>, v: nat): (k: nat)
    ensures k <= |values|
    ensures forall i :: 0 <= i < k ==> values[i] <= v
    ensures k < |values| ==> values[k] > v
  {
    if values == [] || values[0] > v then 0 else 1 + InsertPosition(values[1..], v)
  }

  ghost predicate Ascending(values: seq<nat>) {
    forall i, j :: 0 <= i < j < |values| ==> values[i] <= values[j]
  }

  /** Insertion keeps the order, and is stable: equal values stay in front of the new one. */
  lemma InsertionSortsStably(values: seq<nat>, v: nat)
    requires Ascending(values)
    ensures var k := InsertPosition(values, v);
            && Ascending(values[..k] + [v] + values[k..])
            && (forall i :: 0 <= i < |values| ==> (i < k <==> values[i] <= v))
  {
    var k := InsertPosition(values, v);
    SplicedIsAscending(values, k, v);
  }

  lemma SplicedIsAscending(values: seq<nat>, k: nat, v: nat)
    requires Ascending(values) && k <= |values|
    requires k > 0 ==> values[k - 1] <= v
    requires k < |values| ==> v <= values[k]
    ensures Ascending(values[..k] + [v] + values[k..])
  {
    var r := values[..k] + [v] + values[k..];
    forall i, j | 0 <= i < j < |r| ensures r[i] <= r[j] {
      assert r[i] == if i < k then values[i] else if i == k then v else values[i - 1];
      assert r[j] == if j < k then values[j] else if j == k then v else values[j - 1];
    }
  }

  // ---------------------------------------------------------------- walking round

  /** The items returned by `n` consecutive calls of listGET_OWNER_OF_NEXT_ENTRY. */
  function Visits<T>(r: Ring<T>, n: nat): (v: seq<T>)
    requires n > 0 ==> r.items != []
    requires r.WellFormed()
    ensures |v| == n
    decreases n
  {
    if n == 0 then [] else [r.Next().Indexed()] + Visits(r.Next(), n - 1)
  }

  lemma {:induction false} VisitAt<T>(r: Ring<T>, n: nat, i: nat)
    requires r.WellFormed() && i < n <= |r.items|
    ensures Visits(r, n)[i] == if r.index + i < |r.items| then r.items[r.index + i]
                               else r.items[r.index + i - |r.items|]
    decreases i
  {
    if i > 0 { VisitAt(r.Next(), n - 1, i - 1); }
  }

  /** One full round, from any index: everything past the index, then everything up to it. */
  lemma RoundVisitsAll<T>(r: Ring<T>)
    requires r.WellFormed()
    ensures Visits(r, |r.items|) == r.items[r.index..] + r.items[..r.index]
  {
    hide Visits;
    var v, w := Visits(r, |r.items|), r.items[r.index..] + r.items[..r.index];
    forall i: nat | i < |r.items| ensures v[i] == w[i] { VisitAt(r, |r.items|, i); }
    assert v == w;
  }

  /** In one round every item has its turn exactly once. */
  lemma RoundIsFair<T>(r: Ring<T>)
    requires r.WellFormed()
    ensures multiset(Visits(r, |r.items|)) == multiset(r.items)
  {
    RoundVisitsAll(r);
    RotationKeepsItems(r.items, r.index);
  }

  lemma RotationKeepsItems<T>(items: seq<T>, k: nat)
    requires k <= |items|
    ensures multiset(items[k..] + items[..k]) == multiset(items)
  {
    assert items[..k] + items[k..] == items;
  }

  /** An item put in with vListInsertEnd waits for every other item except the one the
  index rests on, which has just had its turn and comes right after it. */
  lemma InsertEndGoesLast<T>(r: Ring<T>, x: T)
    requires r.WellFormed()
    ensures var others := if r.index == 0 then r.items
                          else r.items[r.index..] + r.items[..r.index - 1];
            var again := if r.index == 0 then [] else [r.items[r.index - 1]];
            Visits(r.InsertEnd(x), |r.items| + 1) == others + [x] + again
  {
    var q := r.InsertEnd(x);
    assert |q.items| == |r.items| + 1;
    RoundVisitsAll(q);
    RotationOfInsertEnd(r, x);
  }

  lemma RotationOfInsertEnd<T>(r: Ring<T>, x: T)
    requires r.WellFormed()
    ensures var q := r.InsertEnd(x);
            var others := if r.index == 0 then r.items
                          else r.items[r.index..] + r.items[..r.index - 1];
            var again := if r.index == 0 then [] else [r.items[r.index - 1]];
            q.items[q.index..] + q.items[..q.index] == others + [x] + again
  {
    var q := r.InsertEnd(x);
    if r.index > 0 {
      assert q.items[q.index..] == r.items[r.index..];
      assert q.items[..q.index] == r.items[..r.index - 1] + [x] + [r.items[r.index - 1]];
    }
  }

  /** Taking an item out, the one the index is on included, leaves all others their turns in order. */
  lemma RemoveKeepsTurns<T>(r: Ring<T>, k: nat)
    requires r.WellFormed() && k < |r.items|
    ensures r.RemoveAt(k).WellFormed()
    ensures var n := |r.items|;
            var j := if k >= r.index then k - r.index else k + n - r.index;
            && Visits(r, n)[j] == r.items[k]
            && Visits(r.RemoveAt(k), n - 1) == Visits(r, n)[..j] + Visits(r, n)[j + 1..]
  {
    hide Visits;
    RoundVisitsAll(r);
    RoundVisitsAll(r.RemoveAt(k));
    RotationWithout(r.items, r.index, k);
  }

  lemma RotationWithout<T>(s: seq<T>, i: nat, k: nat)
    requires i <= |s| && k < |s|
    ensures var round, j := s[i..] + s[..i], if k >= i then k - i else k + |s| - i;
            var left, h := s[..k] + s[k + 1..], if i > k then i - 1 else i;
            round[j] == s[k] && left[h..] + left[..h] == round[..j] + round[j + 1..]
  {
    var round, j := s[i..] + s[..i], if k >= i then k - i else k + |s| - i;
    var left, h := s[..k] + s[k + 1..], if i > k then i - 1 else i;
    if k >= i {
      assert round[..j] == s[i..k];
      assert round[j + 1..] == s[k + 1..] + s[..i];
      assert left[h..] == s[i..k] + s[k + 1..];
    } else {
      assert round[..j] == s[i..] + s[..k];
      assert round[j + 1..] == s[k + 1..i];
      assert left[..h] == s[..k] + s[k + 1..i];
    }
  }
}
