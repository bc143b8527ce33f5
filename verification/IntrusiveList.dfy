/** The circular doubly linked list of FreeRtos/kernel/list.c, on the heap.

Every method is proved to do to the linked structure what the corresponding operation of
module Rings does to its value `Abs()`.
*/
module IntrusiveList {
  import opened Rings

  class ListItem {
    var value: nat
    var next: ListItem?
    var previous: ListItem?
    var container: List?

    /** vListInitialiseItem, together with the owner's first listSET_LIST_ITEM_VALUE. */
    constructor (value: nat)
      ensures this.value == value && container == null
    {
      this.value := value;
      next, previous, container := null, null, null;
    }
  }

  function After(i: nat, n: nat): (j: nat)
    requires i < n
    ensures j < n
  {
    if i + 1 == n then 0 else i + 1
  }

  function Before(i: nat, n: nat): (j: nat)
    requires i < n
    ensures j < n
  {
    if i == 0 then n - 1 else i - 1
  }

  /** No node occurs twice. */
  ghost predicate Ranked(nodes: seq<ListItem>, rank: map<ListItem, nat>) {
    forall i :: 0 <= i < |nodes| ==> nodes[i] in rank && rank[nodes[i]] == i
  }

  ghost function RankWith(rank: map<ListItem, nat>, k: nat, item: ListItem): map<ListItem, nat> {
    (map x | x in rank :: if rank[x] > k then rank[x] + 1 else rank[x])[item := k + 1]
  }

  ghost function RankWithout(rank: map<ListItem, nat>, k: nat): map<ListItem, nat> {
    map x | x in rank :: if rank[x] > k then rank[x] - 1 else rank[x]
  }

  ghost function With(nodes: seq<ListItem>, k: nat, item: ListItem): seq<ListItem>
    requires k < |nodes|
  {
    seq(|nodes| + 1, i requires 0 <= i <= |nodes| =>
      if i <= k then nodes[i] else if i == k + 1 then item else nodes[i - 1])
  }

  ghost function Without(nodes: seq<ListItem>, k: nat): seq<ListItem>
    requires k + 1 < |nodes|
  {
    seq(|nodes| - 1, i requires 0 <= i < |nodes| - 1 => if i <= k then nodes[i] else nodes[i + 1])
  }

  lemma RankedWith(nodes: seq<ListItem>, rank: map<ListItem, nat>, k: nat, item: ListItem)
    requires Ranked(nodes, rank) && k < |nodes| && item !in nodes
    ensures Ranked(With(nodes, k, item), RankWith(rank, k, item))
  {}

  lemma RankedWithout(nodes: seq<ListItem>, rank: map<ListItem, nat>, k: nat)
    requires Ranked(nodes, rank) && k + 1 < |nodes|
    ensures Ranked(Without(nodes, k), RankWithout(rank, k))
    ensures nodes[k + 1] !in Without(nodes, k)
  {}

  lemma WithIsInsertAt(nodes: seq<ListItem>, at: nat, k: nat, item: ListItem)
    requires k < |nodes| && at < |nodes|
    ensures Ring(With(nodes, k, item)[1..], if at > k then at + 1 else at)
         == Ring(nodes[1..], at).InsertAt(k, item)
  {
    assert With(nodes, k, item)[1..] == nodes[1..][..k] + [item] + nodes[1..][k..];
  }

  lemma WithoutIsRemoveAt(nodes: seq<ListItem>, at: nat, k: nat)
    requires k + 1 < |nodes| && at < |nodes|
    ensures Ring(Without(nodes, k)[1..], if at > k then at - 1 else at)
         == Ring(nodes[1..], at).RemoveAt(k)
  {
    assert Without(nodes, k)[1..] == nodes[1..][..k] + nodes[1..][k + 1..];
  }

  /** `nodes` are linked into one ring, forwards and backwards. */
  ghost predicate Linked(nodes: seq<ListItem>)
    reads nodes
  {
    && (forall i {:trigger nodes[i].next} :: 0 <= i < |nodes| ==> nodes[i].next == nodes[After(i, |nodes|)])
    && (forall i {:trigger nodes[i].previous} :: 0 <= i < |nodes| ==> nodes[i].previous == nodes[Before(i, |nodes|)])
  }

  /** `nodes` are linked, with `item` between the nodes at `k` and after it. */
  ghost predicate LinkedButFor(nodes: seq<ListItem>, k: nat, item: ListItem)
    requires k < |nodes|
    reads nodes, item
  {
    && item.next == nodes[After(k, |nodes|)] && item.previous == nodes[k]
    && (forall i {:trigger nodes[i].next} :: 0 <= i < |nodes| ==>
          nodes[i].next == if i == k then item else nodes[After(i, |nodes|)])
    && (forall i {:trigger nodes[i].previous} :: 0 <= i < |nodes| ==>
          nodes[i].previous == if i == After(k, |nodes|) then item else nodes[Before(i, |nodes|)])
  }

  /** `nodes` are linked, except that the links pass over the node at `k + 1`. */
  ghost predicate LinkedPast(nodes: seq<ListItem>, k: nat)
    requires k + 1 < |nodes|
    reads nodes`next, nodes`previous
  {
    && (forall i {:trigger nodes[i].next} :: 0 <= i < |nodes| && i != k + 1 ==>
          nodes[i].next == if i == k then nodes[After(k + 1, |nodes|)] else nodes[After(i, |nodes|)])
    && (forall i {:trigger nodes[i].previous} :: 0 <= i < |nodes| && i != k + 1 ==>
          nodes[i].previous == if i == After(k + 1, |nodes|) then nodes[k] else nodes[Before(i, |nodes|)])
  }

  ghost predicate OwnedButFor(nodes: seq<ListItem>, k: nat, owner: List)
    reads nodes`container, nodes`value
  {
    && (forall i {:trigger nodes[i].container} :: 0 < i < |nodes| && i != k + 1 ==> nodes[i].container == owner)
    && (forall i {:trigger nodes[i].value} :: 0 < i < |nodes| ==> nodes[i].value <= MAX_DELAY)
  }

  /** Every item, but not the end marker, names the list that holds it. */
  ghost predicate Owned(nodes: seq<ListItem>, owner: List)
    reads nodes
  {
    && (forall i {:trigger nodes[i].container} :: 0 < i < |nodes| ==> nodes[i].container == owner)
    && (forall i {:trigger nodes[i].value} :: 0 < i < |nodes| ==> nodes[i].value <= MAX_DELAY)
  }

  lemma OwnedWith(nodes: seq<ListItem>, k: nat, item: ListItem, owner: List)
    requires Owned(nodes, owner) && k < |nodes|
    requires item.container == owner && item.value <= MAX_DELAY
    ensures Owned(With(nodes, k, item), owner)
  {
    var w := With(nodes, k, item);
    forall i | 0 < i < |w| ensures w[i].container == owner && w[i].value <= MAX_DELAY {
      assert w[i] == if i <= k then nodes[i] else if i == k + 1 then item else nodes[i - 1];
    }
  }

  lemma OwnedWithout(nodes: seq<ListItem>, k: nat, owner: List)
    requires k + 1 < |nodes| && OwnedButFor(nodes, k, owner)
    ensures Owned(Without(nodes, k), owner)
  {
    var w := Without(nodes, k);
    forall i | 0 < i < |w| ensures w[i].container == owner && w[i].value <= MAX_DELAY {
      assert w[i] == if i <= k then nodes[i] else nodes[i + 1];
    }
  }

  lemma LinkedWith(nodes: seq<ListItem>, k: nat, item: ListItem)
    requires k < |nodes| && LinkedButFor(nodes, k, item)
    ensures Linked(With(nodes, k, item))
  {
    var w := With(nodes, k, item);
    forall i | 0 <= i < |w|
      ensures w[i].next == w[After(i, |w|)] && w[i].previous == w[Before(i, |w|)]
    {
      if i <= k {
        assert w[i] == nodes[i];
      } else if i > k + 1 {
        assert w[i] == nodes[i - 1];
      }
    }
  }

  lemma LinkedWithout(nodes: seq<ListItem>, k: nat)
    requires k + 1 < |nodes| && LinkedPast(nodes, k)
    ensures Linked(Without(nodes, k))
  {
    var w := Without(nodes, k);
    forall i | 0 <= i < |w|
      ensures w[i].next == w[After(i, |w|)] && w[i].previous == w[Before(i, |w|)]
    {
      if i <= k {
        assert w[i] == nodes[i];
      } else {
        assert w[i] == nodes[i + 1];
      }
    }
  }

  class List {
    const end: ListItem
    var index: ListItem
    var count: nat
    ghost var nodes: seq<ListItem>       // the whole ring, from the end marker onwards
    ghost var rank: map<ListItem, nat>   // the place of each node in the ring
    ghost var at: nat                    // the place where the index rests

    /** Next and previous are inverse round the ring, and containers and count agree with it. */
    ghost predicate Valid()
      reads this, nodes
    {
      && 1 <= |nodes| && nodes[0] == end
      && at < |nodes| && nodes[at] == index
      && count == |nodes| - 1
      && Ranked(nodes, rank)
      && Linked(nodes)
      && Owned(nodes, this)
      && end.value == MAX_DELAY && end.container == null
    }

    ghost function Abs(): (r: Ring<ListItem>)
      requires 0 < |nodes|
      reads this
      ensures at < |nodes| ==> r.WellFormed()
    {
      Ring(nodes[1..], at)
    }

    ghost function Values(): (v: seq<nat>)
      requires 0 < |nodes|
      reads this, nodes
      ensures |v| == |nodes| - 1
    {
      seq(|nodes| - 1, i requires 0 <= i < |nodes| - 1 reads this, nodes => nodes[i + 1].value)
    }

    /** vListInitialise. */
    constructor ()
      ensures Valid() && Abs() == Ring([], 0)
      ensures fresh(end)
    {
      var marker := new ListItem(MAX_DELAY);
      end, index, count := marker, marker, 0;
      nodes, rank, at := [marker], map[marker := 0], 0;
      new;
      end.next, end.previous := end, end;
    }

    /** Put `item` between two neighbours. */
    static method Splice(item: ListItem, where: ListItem, follower: ListItem)
      requires item != where && item != follower
      modifies item`next, item`previous, where`next, follower`previous
      ensures item.next == follower && item.previous == where
      ensures where.next == item && follower.previous == item
    {
      item.next := follower;
      follower.previous := item;
      item.previous := where;
      where.next := item;
    }

    /** Let the neighbours of `item` point past it. */
    method Unlink(item: ListItem, ghost k: nat)
      requires Valid() && k < count && nodes[k + 1] == item
      modifies nodes`next, nodes`previous
      ensures LinkedPast(nodes, k)
      ensures item.previous == nodes[k]
    {
      var before, follower := item.previous, item.next;
      assert before == nodes[k] && follower == nodes[After(k + 1, |nodes|)];
      follower.previous := before;
      before.next := follower;
    }

    /** Link `item` in behind `where`, the node `k` steps from the end marker. */
    method LinkAfter(item: ListItem, where: ListItem, ghost k: nat)
      requires Valid() && k < |nodes| && nodes[k] == where
      requires item !in nodes && item.container == null && item.value <= MAX_DELAY
      modifies this, nodes`next, nodes`previous, item`next, item`previous, item`container
      ensures Valid()
      ensures Abs() == old(Abs()).InsertAt(k, item)
    {
      Splice(item, where, where.next);
      item.container := this;
      count := count + 1;
      AdoptWith(item, k);
    }

    /** The bookkeeping of LinkAfter, once the pointers are in place. */
    ghost method AdoptWith(item: ListItem, k: nat)
      requires Ranked(nodes, rank) && Owned(nodes, this) && k < |nodes| && item !in nodes
      requires nodes[0] == end && end.value == MAX_DELAY && end.container == null
      requires at < |nodes| && nodes[at] == index && count == |nodes|
      requires item.container == this && item.value <= MAX_DELAY
      requires LinkedButFor(nodes, k, item)
      modifies this`nodes, this`rank, this`at
      ensures Valid()
      ensures Abs() == old(Abs()).InsertAt(k, item)
    {
      LinkedWith(nodes, k, item);
      OwnedWith(nodes, k, item, this);
      RankedWith(nodes, rank, k, item);
      nodes, rank, at := With(nodes, k, item), RankWith(rank, k, item), if at > k then at + 1 else at;
      WithIsInsertAt(old(nodes), old(at), k, item);
    }

    /** vListInsert: behind every item whose value is not greater. */
    method Insert(item: ListItem)
      requires Valid()
      requires item !in nodes && item.container == null && item.value <= MAX_DELAY
      modifies this, nodes`next, nodes`previous, item`next, item`previous, item`container
      ensures Valid()
      ensures Abs() == old(Abs()).InsertAt(InsertPosition(old(Values()), item.value), item)
    {
      var cursor := end;
      ghost var k := 0;
      if item.value == MAX_DELAY {
        cursor := end.previous;
        k := |nodes| - 1;
      } else {
        while cursor.next.value <= item.value
          invariant k < |nodes| && nodes[k] == cursor
          invariant forall i :: 0 < i <= k ==> nodes[i].value <= item.value
          decreases |nodes| - k
        {
          assert After(k, |nodes|) != 0;
          cursor := cursor.next;
          k := k + 1;
        }
        assert k + 1 < |nodes| ==> nodes[k + 1].value > item.value;
      }
      PositionIs(Values(), item.value, k);
      LinkAfter(item, cursor, k);
    }

    /** vListInsertEnd: just behind the index, the last place the index will reach. */
    method InsertEnd(item: ListItem)
      requires Valid()
      requires item !in nodes && item.container == null && item.value <= MAX_DELAY
      modifies this, nodes`next, nodes`previous, item`next, item`previous, item`container
      ensures Valid()
      ensures Abs() == old(Abs()).InsertEnd(item)
    {
      LinkAfter(item, index.previous, Before(at, |nodes|));
    }

    /** uxListRemove. */
    method Remove(item: ListItem, ghost k: nat) returns (remaining: nat)
      requires Valid() && k < count && Abs().items[k] == item
      modifies this, nodes`next, nodes`previous, item`container
      ensures Valid() && remaining == count
      ensures item.container == null && item !in nodes
      ensures Abs() == old(Abs()).RemoveAt(k)
    {
      Unlink(item, k);
      if index == item {
        index := item.previous;
      }
      item.container := null;
      count := count - 1;
      remaining := count;
      AdoptWithout(k);
    }

    /** The bookkeeping of Remove, once the pointers are in place. */
    ghost method AdoptWithout(k: nat)
      requires Ranked(nodes, rank) && OwnedButFor(nodes, k, this) && k + 1 < |nodes|
      requires nodes[0] == end && end.value == MAX_DELAY && end.container == null
      requires at < |nodes| && index == nodes[if at == k + 1 then k else at] && count == |nodes| - 2
      requires LinkedPast(nodes, k)
      modifies this`nodes, this`rank, this`at
      ensures Valid() && old(nodes)[k + 1] !in nodes
      ensures Abs() == old(Abs()).RemoveAt(k)
    {
      LinkedWithout(nodes, k);
      OwnedWithout(nodes, k, this);
      RankedWithout(nodes, rank, k);
      nodes, rank, at := Without(nodes, k), RankWithout(rank, k), if at > k then at - 1 else at;
      WithoutIsRemoveAt(old(nodes), old(at), k);
    }

    /** listGET_OWNER_OF_NEXT_ENTRY. */
    method Advance() returns (item: ListItem)
      requires Valid() && count > 0
      modifies this`index, this`at
      ensures Valid() && Abs() == old(Abs()).Next() && item == Abs().Indexed()
    {
      index := index.next;
      at := After(at, |nodes|);
      if index == end {
        index := end.next;
        at := 1;
      }
      item := index;
    }
  }

  /** The loop of vListInsert stops exactly where InsertPosition says. */
  lemma {:induction false} PositionIs(values: seq<nat>, v: nat, k: nat)
    requires k <= |values|
    requires forall i :: 0 <= i < k ==> values[i] <= v
    requires k < |values| ==> values[k] > v
    ensures InsertPosition(values, v) == k
    decreases |values|
  {
    if k > 0 { PositionIs(values[1..], v, k - 1); }
  }
}
