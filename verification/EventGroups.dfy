/** Event groups, FreeRtos/kernel/event_groups.c: tasks that wait for any or all of a set of bits. */
module EventGroups {
  import opened Basics
  import opened Bits

  const CLEAR_ON_EXIT: bv32 := 0x0100_0000 // eventCLEAR_EVENTS_ON_EXIT_BIT
  const UNBLOCKED: bv32 := 0x0200_0000     // eventUNBLOCKED_DUE_TO_BIT_SET
  const WAIT_FOR_ALL: bv32 := 0x0400_0000  // eventWAIT_FOR_ALL_BITS
  const IN_USE: bv32 := 0x8000_0000        // taskEVENT_LIST_ITEM_VALUE_IN_USE
  const CONTROL: bv32 := 0xff00_0000       // eventEVENT_BITS_CONTROL_BYTES

  /** The event bits of an item value, and whether it says that bits were set. */
  function EventBits(value: bv32): bv32 { value & !CONTROL }

  predicate BitsWereSet(value: bv32) { value & UNBLOCKED != 0 }

  /** What a blocked call waits for. */
  datatype Request = Request(bits: bv32, clear: bool, all: bool)

  /** prvTestWaitCondition. */
  function Met(current: bv32, r: Request): bool {
    if r.all then Includes(current, r.bits) else !Disjoint(current, r.bits)
  }

  ghost predicate Proper(r: Request) { Disjoint(r.bits, CONTROL) && r.bits != 0 }

  /** prvTestWaitCondition, bit by bit: all the bits waited for are set, or one of them is. */
  lemma MetIs(current: bv32, r: Request)
    ensures Met(current, r) <==>
            if r.all then forall i :: 0 <= i < 32 && Bit(r.bits, i) ==> Bit(current, i)
            else exists i :: 0 <= i < 32 && Bit(r.bits, i) && Bit(current, i)
  {
    hide Bit, Disjoint, Includes;
    IncludesIs(current, r.bits);
    DisjointIs(current, r.bits);
  }

  // ---------------------------------------------------------------- the item value

  /** The value of the event list item of a task that waits: the bits it waits for, and how. */
  function Encode(r: Request): bv32 {
    r.bits | (if r.clear then CLEAR_ON_EXIT else 0) | (if r.all then WAIT_FOR_ALL else 0) | IN_USE
  }

  /** How xEventGroupSetBits reads it. */
  function Decode(value: bv32): Request {
    Request(value & !CONTROL, value & CLEAR_ON_EXIT != 0, value & WAIT_FOR_ALL != 0)
  }

  lemma DecodeUndoesEncode(r: Request)
    requires Proper(r)
    ensures Decode(Encode(r)) == r && !BitsWereSet(Encode(r))
  {
    var c, a := if r.clear then CLEAR_ON_EXIT else 0, if r.all then WAIT_FOR_ALL else 0;
    FieldsApart(r.bits, c, a);
  }

  lemma FieldsApart(bits: bv32, c: bv32, a: bv32)
    requires bits & CONTROL == 0 && (c == 0 || c == CLEAR_ON_EXIT) && (a == 0 || a == WAIT_FOR_ALL)
    ensures var v := bits | c | a | IN_USE;
            v & !CONTROL == bits && v & CLEAR_ON_EXIT == c && v & WAIT_FOR_ALL == a && v & UNBLOCKED == 0
  {}

  /** The value stored for a task that is woken by bits being set. */
  function Wake(bits: bv32): bv32 { bits | UNBLOCKED | IN_USE }

  lemma WakeKeepsBits(bits: bv32)
    requires Disjoint(bits, CONTROL)
    ensures EventBits(Wake(bits)) == bits && BitsWereSet(Wake(bits))
  {}

  /** A condition that bits do not meet is not met by fewer bits either. */
  lemma MetIsMonotone(bits: bv32, cleared: bv32, r: Request)
    requires !Met(bits, r)
    ensures !Met(Without(bits, cleared), r)
  {
    hide Includes, Disjoint, Without;
    FewerBits(bits, cleared, r.bits);
  }

  lemma FewerBits(b: bv32, c: bv32, w: bv32)
    ensures Disjoint(b, w) ==> Disjoint(Without(b, c), w)
    ensures Includes(Without(b, c), w) ==> Includes(b, w)
  {}

  // ---------------------------------------------------------------- the effect of setting bits

  ghost predicate Known(list: seq<Task>, request: map<Task, Request>) {
    forall t :: t in list ==> t in request
  }

  /** The tasks that go on waiting, in the order they were. */
  ghost function Kept(list: seq<Task>, request: map<Task, Request>, bits: bv32): (k: seq<Task>)
    requires Known(list, request)
    ensures |k| <= |list|
  {
    if list == [] then []
    else
      var k := Kept(list[..|list| - 1], request, bits);
      var t := list[|list| - 1];
      if Met(bits, request[t]) then k else k + [t]
  }

  /** The bits that the woken tasks asked to have cleared. */
  ghost function Cleared(list: seq<Task>, request: map<Task, Request>, bits: bv32): bv32
    requires Known(list, request)
  {
    if list == [] then 0
    else
      var c := Cleared(list[..|list| - 1], request, bits);
      var r := request[list[|list| - 1]];
      if Met(bits, r) && r.clear then Union(c, r.bits) else c
  }

  lemma {:induction false} KeptMembers(list: seq<Task>, request: map<Task, Request>, bits: bv32)
    requires Known(list, request)
    ensures forall t :: t in Kept(list, request, bits) <==> t in list && !Met(bits, request[t])
  {
    hide Met;
    if list != [] {
      var n := |list| - 1;
      KeptMembers(list[..n], request, bits);
      assert list == list[..n] + [list[n]];
    }
  }

  lemma {:induction false} KeptDistinct(list: seq<Task>, request: map<Task, Request>, bits: bv32)
    requires Known(list, request) && Distinct(list)
    ensures Distinct(Kept(list, request, bits))
  {
    hide Met;
    if list != [] {
      var n := |list| - 1;
      KeptDistinct(list[..n], request, bits);
      KeptMembers(list[..n], request, bits);
    }
  }

  /** Exactly the union: a bit is cleared if and only if a woken task that clears on exit waited for
  it. */
  lemma {:induction false} ClearedIsUnion(list: seq<Task>, request: map<Task, Request>, bits: bv32, i: nat)
    requires Known(list, request)
    ensures Bit(Cleared(list, request, bits), i) <==>
            exists t :: t in list && Met(bits, request[t]) && request[t].clear && Bit(request[t].bits, i)
  {
    hide Met, Bit, Union;
    if list == [] {
      NoBit(i);
    } else {
      var n := |list| - 1;
      var t := list[n];
      ClearedIsUnion(list[..n], request, bits, i);
      assert list == list[..n] + [t];
      BitOfUnion(Cleared(list[..n], request, bits), request[t].bits, i);
    }
  }

  lemma BitsStayLow(a: bv32, b: bv32)
    requires Disjoint(a, CONTROL)
    ensures Disjoint(Without(a, b), CONTROL)
    ensures Disjoint(b, CONTROL) ==> Disjoint(Union(a, b), CONTROL)
  {}

  /** One more task swept. */
  lemma SweepStep(w: seq<Task>, k: nat, request: map<Task, Request>, bits: bv32)
    requires k < |w| && Known(w, request) && Distinct(w)
    ensures Known(w[..k], request) && Known(w[..k + 1], request) && w[k] in request && w[k] !in w[..k]
    ensures var kept, r := Kept(w[..k], request, bits), request[w[k]];
            && Kept(w[..k + 1], request, bits) == (if Met(bits, r) then kept else kept + [w[k]])
            && Cleared(w[..k + 1], request, bits)
                 == (var c := Cleared(w[..k], request, bits); if Met(bits, r) && r.clear then Union(c, r.bits) else c)
    ensures forall t :: t in w[..k + 1] <==> t in w[..k] || t == w[k]
  {
    hide Met, Union;
    assert w[..k + 1] == w[..k] + [w[k]] && w[..k + 1][..k] == w[..k];
  }

  lemma SweepStart(w: seq<Task>, item: map<Task, bv32>, request: map<Task, Request>, bits: bv32)
    requires Known(w, request)
    ensures Handed(item, item, w[..0], request, bits)
    ensures Known(w[..0], request) && Kept(w[..0], request, bits) == [] && Cleared(w[..0], request, bits) == 0
    ensures w[0..] == w && w[..|w|] == w
    ensures forall t :: t in w ==> t in request
  {}

  /** Of the tasks swept, the woken ones have been handed the bits; the others' items are as before. */
  ghost predicate Handed(before: map<Task, bv32>, after: map<Task, bv32>, swept: seq<Task>,
                         request: map<Task, Request>, bits: bv32) {
    && Known(swept, request) && after.Keys == before.Keys
    && forall t :: t in before ==>
         after[t] == if t in swept && Met(bits, request[t]) then Wake(bits) else before[t]
  }

  lemma HandedStep(before: map<Task, bv32>, after: map<Task, bv32>, w: seq<Task>, k: nat,
                   request: map<Task, Request>, bits: bv32)
    requires k < |w| && Known(w, request) && Distinct(w) && w[k] in before
    requires Handed(before, after, w[..k], request, bits)
    ensures w[k] in after && after[w[k]] == before[w[k]]
    ensures Handed(before, if Met(bits, request[w[k]]) then after[w[k] := Wake(bits)] else after, w[..k + 1],
                   request, bits)
  {
    hide Met, Wake;
    SweepStep(w, k, request, bits);
  }

  lemma CutHead(kept: seq<Task>, w: seq<Task>, k: nat)
    requires k < |w|
    ensures var l, i := kept + w[k..], |kept|;
            l[i] == w[k] && l[..i] + l[i + 1..] == kept + w[k + 1..] && l == kept + [w[k]] + w[k + 1..]
  {}

  /** A rendezvous that is not complete is not met by the bits left after clearing. */
  lemma StillIncomplete(b: bv32, left: bv32, wait: bv32)
    requires !Includes(b, wait) && exists c :: left == Without(b, c)
    ensures !Met(left, Request(wait, true, true))
  {
    hide Includes, Without;
    var c :| left == Without(b, c);
    FewerBits(b, c, wait);
  }

  // ---------------------------------------------------------------- the event group

  class Group {
    var bits: bv32                  // uxEventBits
    var waiting: seq<Task>          // xTasksWaitingForBits
    var item: map<Task, bv32>       // values of the tasks' xEventListItem
    ghost var request: map<Task, Request> // the calls that have blocked and not yet returned

    /** No task that waits has its condition met, and a task that was woken has been handed bits
    that meet its condition. */
    ghost predicate Valid()
      reads this
    {
      && Disjoint(bits, CONTROL) && Distinct(waiting) && Known(waiting, request)
      && (forall t :: t in request ==> t in item && Proper(request[t]))
      && (forall t :: t in waiting ==> item[t] == Encode(request[t]) && !Met(bits, request[t]))
      && (forall t :: t in request && t !in waiting && BitsWereSet(item[t]) ==> Met(EventBits(item[t]), request[t]))
    }

    constructor ()
      ensures Valid() && bits == 0 && waiting == [] && request == map[]
    {
      bits, waiting, item, request := 0, [], map[], map[];
    }

    /** xEventGroupClearBits. */
    method ClearBits(clear: bv32) returns (before: bv32)
      requires Valid()
      modifies this`bits
      ensures Valid() && before == old(bits) && bits == Without(old(bits), clear)
    {
      hide Met, Encode, Disjoint, Without, BitsWereSet, EventBits, Proper;
      before := bits;
      forall t | t in waiting ensures !Met(Without(bits, clear), request[t]) { MetIsMonotone(bits, clear, request[t]); }
      BitsStayLow(bits, clear);
      bits := Without(bits, clear);
    }

    /** The first k of the tasks w that were waiting have been looked at. */
    ghost predicate Swept(w: seq<Task>, before: map<Task, bv32>, k: nat, i: nat, clear: bv32)
      reads this
    {
      && k <= |w| && Known(w[..k], request)
      && waiting == Kept(w[..k], request, bits) + w[k..] && i == |Kept(w[..k], request, bits)|
      && clear == Cleared(w[..k], request, bits)
      && Handed(before, item, w[..k], request, bits)
    }

    /** One round of the loop of xEventGroupSetBits: wake the task at position i of the list if its
    condition is met, or go on to the next. */
    method Visit(i: nat, clear: bv32, ghost w: seq<Task>, ghost before: map<Task, bv32>, ghost k: nat)
      returns (i': nat, clear': bv32)
      requires Distinct(w) && Known(w, request) && Swept(w, before, k, i, clear) && i < |waiting|
      requires forall t :: t in w ==> t in before && Proper(request[t]) && before[t] == Encode(request[t])
      modifies this`waiting, this`item
      ensures k < |w| && Swept(w, before, k + 1, i', clear')
    {
      hide Handed, Met, Encode, Decode, Proper, Union, Wake, Disjoint, Kept, Cleared, Distinct;
      i', clear' := i, clear;
      SweepStep(w, k, request, bits);
      CutHead(Kept(w[..k], request, bits), w, k);
      var t := waiting[i];
      assert t == w[k] && t in w;
      HandedStep(before, item, w, k, request, bits);
      DecodeUndoesEncode(request[t]);
      var r := Decode(item[t]);
      if Met(bits, r) {
        if r.clear {
          clear' := Union(clear, r.bits);
        }
        waiting := waiting[..i] + waiting[i + 1..];
        item := item[t := Wake(bits)];
      } else {
        i' := i + 1;
      }
    }

    /** The loop of xEventGroupSetBits over the waiting tasks. */
    method Sweep() returns (clear: bv32)
      requires Distinct(waiting) && Known(waiting, request)
      requires forall t :: t in waiting ==> t in item && Proper(request[t]) && item[t] == Encode(request[t])
      modifies this`waiting, this`item
      ensures waiting == Kept(old(waiting), request, bits) && clear == Cleared(old(waiting), request, bits)
      ensures Handed(old(item), item, old(waiting), request, bits)
    {
      hide Handed, Met, Encode, Proper, Kept, Cleared, Distinct;
      var i: nat := 0;
      clear := 0;
      ghost var w, k: nat := waiting, 0;
      SweepStart(w, item, request, bits);
      while i < |waiting|
        invariant Swept(w, old(item), k, i, clear)
        decreases |w| - k
      {
        i, clear := Visit(i, clear, w, old(item), k);
        k := k + 1;
      }
      assert w[..k] == w;
    }

    /** xEventGroupSetBits: wakes exactly the waiting tasks whose condition the old and new bits
    meet, hands them those bits, and then clears what they asked to have cleared. */
    method SetBits(set': bv32) returns (after: bv32)
      requires Valid() && Disjoint(set', CONTROL)
      modifies this`bits, this`waiting, this`item
      ensures Valid() && after == bits
      ensures var b := Union(old(bits), set');
              && bits == Without(b, Cleared(old(waiting), request, b))
              && waiting == Kept(old(waiting), request, b)
              && (forall t :: t in waiting <==> t in old(waiting) && !Met(b, request[t]))
              && (forall t :: t in old(waiting) && t !in waiting ==> t in item && item[t] == Wake(b))
              && (forall t :: t in old(item) && !(t in old(waiting) && t !in waiting) ==>
                    t in item && item[t] == old(item)[t])
    {
      hide Met, Encode, Proper, Union, Without, Wake, Disjoint, Kept, Cleared, BitsWereSet, EventBits;
      BitsStayLow(bits, set');
      bits := Union(bits, set');
      ghost var b := bits;
      var clear := Sweep();
      KeptMembers(old(waiting), request, b);
      KeptDistinct(old(waiting), request, b);
      WakeKeepsBits(b);
      BitsStayLow(bits, clear);
      forall t | t in waiting ensures !Met(Without(b, clear), request[t]) { MetIsMonotone(b, clear, request[t]); }
      bits := Without(bits, clear);
      after := bits;
    }

    /** vTaskPlaceOnUnorderedEventList: the task blocks. */
    method Block(t: Task, r: Request)
      requires Valid() && t !in request && Proper(r) && !Met(bits, r)
      modifies this`waiting, this`item, this`request
      ensures Valid() && request == old(request)[t := r] && waiting == old(waiting) + [t]
      ensures item == old(item)[t := Encode(r)]
    {
      hide Met, Encode, Proper, Disjoint, BitsWereSet, EventBits;
      request := request[t := r];
      item := item[t := Encode(r)];
      waiting := waiting + [t];
    }

    /** The first part of xEventGroupWaitBits: return at once, or block. */
    method WaitBits(t: Task, r: Request, block: bool) returns (result: bv32, blocked: bool)
      requires Valid() && t !in request && Proper(r)
      modifies this
      ensures Valid()
      ensures blocked == (block && !Met(old(bits), r))
      ensures blocked ==> waiting == old(waiting) + [t] && request == old(request)[t := r] && bits == old(bits)
      ensures !blocked ==> result == old(bits) && request == old(request) && waiting == old(waiting)
      ensures !blocked ==> bits == if Met(old(bits), r) && r.clear then Without(old(bits), r.bits) else old(bits)
    {
      hide Met, Encode, Proper, Without, Disjoint, BitsWereSet, EventBits;
      result, blocked := bits, false;
      if Met(bits, r) {
        if r.clear {
          var _ := ClearBits(r.bits);
        }
      } else if block {
        Block(t, r);
        blocked := true;
      }
    }

    /** The first part of xEventGroupSync: set bits, then return if the rendezvous is complete. */
    method Sync(t: Task, set': bv32, wait: bv32, block: bool) returns (result: bv32, complete: bool)
      requires Valid() && t !in request && Disjoint(set', CONTROL) && Disjoint(wait, CONTROL) && wait != 0
      modifies this
      ensures Valid()
      ensures var b := Union(old(bits), set');
              && complete == Includes(b, wait)
              && var left := Without(b, Cleared(old(waiting), old(request), b));
              && var kept := Kept(old(waiting), old(request), b);
              && (complete ==> result == b && bits == Without(left, wait))
              && (!complete ==> bits == left && (!block ==> result == left))
              && waiting == (if complete || !block then kept else kept + [t])
              && request == (if complete || !block then old(request) else old(request)[t := Request(wait, true, true)])
    {
      hide Met, Encode, Union, Without, Includes, Disjoint, BitsWereSet, EventBits, Kept, Cleared, Wake;
      var original := bits;
      var _ := SetBits(set');
      complete := Includes(Union(original, set'), wait);
      if complete {
        result := Union(original, set');
        var _ := ClearBits(wait);
      } else if block {
        StillIncomplete(Union(original, set'), bits, wait);
        Block(t, Request(wait, true, true));
        result := 0;
      } else {
        result := bits;
      }
    }

    /** The block time of a waiting task runs out. */
    method Expire(t: Task)
      requires Valid() && t in waiting
      modifies this`waiting
      ensures Valid() && t !in waiting && forall u :: u != t ==> (u in waiting <==> u in old(waiting))
    {
      hide Met, Encode, Proper, Disjoint, BitsWereSet, EventBits;
      var i :| 0 <= i < |waiting| && waiting[i] == t;
      CutMembers(waiting, i);
      DecodeUndoesEncode(request[t]);
      waiting := waiting[..i] + waiting[i + 1..];
    }

    /** The last part of xEventGroupWaitBits and xEventGroupSync, when the task runs again. If it was
    woken by bits being set, then what it returns meets its condition. */
    method Finish(t: Task, r: Request) returns (result: bv32, timedOut: bool)
      requires Valid() && t in request && request[t] == r && t !in waiting
      modifies this`bits, this`request
      ensures Valid() && request == old(request) - {t}
      ensures timedOut <==> !BitsWereSet(item[t])
      ensures !timedOut ==> Met(result, r) && result == EventBits(item[t]) && bits == old(bits)
      ensures timedOut ==> result == old(bits)
      ensures timedOut ==> bits == if Met(old(bits), r) && r.clear then Without(old(bits), r.bits) else old(bits)
    {
      hide Met, Encode, Proper, Without, Disjoint, BitsWereSet, EventBits;
      timedOut := !BitsWereSet(item[t]);
      if timedOut {
        result := bits;
        if Met(bits, r) && r.clear {
          var _ := ClearBits(r.bits);
        }
      } else {
        result := EventBits(item[t]);
      }
      request := request - {t};
    }
  }
}
