/** The A* open list: entries (f, h, g, insertion number, state) taken out
    least first in lexicographic order, with at most one live entry per state. */
module OpenList {
  import opened States

  datatype Entry = Entry(f: int, h: int, g: int, order: int, state: State)

  /** Lexicographic order on (f, h, g, insertion number): ties on f go to the smaller h,
      then the smaller g, then the earlier insertion. */
  predicate EntryLe(a: Entry, b: Entry) {
    a.f < b.f || (a.f == b.f && (a.h < b.h || (a.h == b.h && (a.g < b.g || (a.g == b.g && a.order <= b.order)))))
  }

  /** The position of a least entry (the first one, should there be ties). */
  function MinIndex(heap: seq<Entry>): (k: nat)
    requires |heap| > 0
    ensures k < |heap|
    ensures forall j :: 0 <= j < |heap| ==> EntryLe(heap[k], heap[j])
  {
    if |heap| == 1 then 0
    else
      var k := MinIndex(heap[1..]) + 1;
      if EntryLe(heap[0], heap[k]) then 0 else k
  }

  /** With distinct insertion numbers there is only one least entry: any
      entry that is at most the least one sits at the same position. */
  lemma LeastIsUnique(heap: seq<Entry>, k: nat)
    requires DistinctOrders(heap) && k < |heap|
    requires forall j :: 0 <= j < |heap| ==> EntryLe(heap[k], heap[j])
    ensures forall j :: 0 <= j < |heap| && EntryLe(heap[j], heap[k]) ==> j == k
  {
    forall j | 0 <= j < |heap| && EntryLe(heap[j], heap[k]) ensures j == k {
      assert EntryLe(heap[k], heap[j]);
      assert heap[j].order == heap[k].order;
    }
  }

  ghost function LiveStates(heap: seq<Entry>): set<State> {
    set e | e in heap :: e.state
  }

  ghost predicate DistinctStates(heap: seq<Entry>) {
    forall i, j :: 0 <= i < j < |heap| ==> heap[i].state != heap[j].state
  }

  lemma {:induction false} DistinctStatesCount(heap: seq<Entry>)
    requires DistinctStates(heap)
    ensures |LiveStates(heap)| == |heap|
  {
    if heap != [] {
      var rest := heap[1..];
      assert DistinctStates(rest) by {
        forall i, j | 0 <= i < j < |rest| ensures rest[i].state != rest[j].state {
          assert rest[i] == heap[i + 1] && rest[j] == heap[j + 1];
        }
      }
      DistinctStatesCount(rest);
      assert LiveStates(heap) == {heap[0].state} + LiveStates(rest) by {
        assert heap == [heap[0]] + rest;
      }
      assert heap[0].state !in LiveStates(rest);
    }
  }

  /** The open-list invariant on its parts: the membership set is the set
      of states in the heap, no state has two entries, and insertion numbers
      are distinct and below the counter. */
  ghost predicate WellFormed(heap: seq<Entry>, members: set<State>, counter: nat) {
    members == LiveStates(heap) && DistinctStates(heap) && DistinctOrders(heap) && OrdersBelow(heap, counter)
  }

  ghost predicate DistinctOrders(heap: seq<Entry>) {
    forall i, j :: 0 <= i < j < |heap| ==> heap[i].order != heap[j].order
  }

  ghost predicate OrdersBelow(heap: seq<Entry>, counter: nat) {
    forall i :: 0 <= i < |heap| ==> 0 <= heap[i].order < counter
  }

  lemma Pushed(heap: seq<Entry>, members: set<State>, counter: nat, e: Entry)
    requires WellFormed(heap, members, counter) && e.state !in members && e.order == counter
    ensures WellFormed(heap + [e], members + {e.state}, counter + 1)
  {
    var r := heap + [e];
    assert forall i :: 0 <= i < |heap| ==> heap[i].state in members;
    assert forall i :: 0 <= i < |heap| ==> r[i] == heap[i];
    assert LiveStates(r) == members + {e.state} by {
      forall x | x in LiveStates(r) ensures x in members + {e.state} {
        var d :| d in r && d.state == x;
      }
    }
  }

  lemma Removed(heap: seq<Entry>, members: set<State>, counter: nat, k: nat)
    requires WellFormed(heap, members, counter) && k < |heap|
    ensures WellFormed(heap[..k] + heap[k + 1..], members - {heap[k].state}, counter)
    ensures forall e :: e in heap[..k] + heap[k + 1..] ==> e in heap && e.state != heap[k].state
    ensures heap[k].state in members
  {
    RemovedAt(heap, k);
    RemovedKeepsDistinct(heap, counter, k);
    RemovedStates(heap, k);
  }

  lemma RemovedKeepsDistinct(heap: seq<Entry>, counter: nat, k: nat)
    requires k < |heap| && |heap[..k] + heap[k + 1..]| == |heap| - 1
    requires forall i :: 0 <= i < |heap| - 1 ==> (heap[..k] + heap[k + 1..])[i] == heap[Skip(i, k)]
    requires DistinctStates(heap) && DistinctOrders(heap) && OrdersBelow(heap, counter)
    ensures DistinctStates(heap[..k] + heap[k + 1..]) && DistinctOrders(heap[..k] + heap[k + 1..])
    ensures OrdersBelow(heap[..k] + heap[k + 1..], counter)
  {
    var r := heap[..k] + heap[k + 1..];
    forall i, j | 0 <= i < j < |r| ensures r[i].state != r[j].state && r[i].order != r[j].order {
      assert r[i] == heap[Skip(i, k)] && r[j] == heap[Skip(j, k)];
    }
    forall i | 0 <= i < |r| ensures 0 <= r[i].order < counter {
      assert r[i] == heap[Skip(i, k)];
    }
  }

  lemma RemovedStates(heap: seq<Entry>, k: nat)
    requires k < |heap| && |heap[..k] + heap[k + 1..]| == |heap| - 1
    requires forall i :: 0 <= i < |heap| - 1 ==> (heap[..k] + heap[k + 1..])[i] == heap[Skip(i, k)]
    requires DistinctStates(heap)
    ensures LiveStates(heap[..k] + heap[k + 1..]) == LiveStates(heap) - {heap[k].state}
    ensures forall e :: e in heap[..k] + heap[k + 1..] ==> e in heap && e.state != heap[k].state
    ensures heap[k].state in LiveStates(heap)
  {
    var r := heap[..k] + heap[k + 1..];
    forall x | x in r ensures x in heap && x.state != heap[k].state {
      var i :| 0 <= i < |r| && r[i] == x;
      assert x == heap[Skip(i, k)];
    }
    forall x | x in LiveStates(heap) - {heap[k].state} ensures x in LiveStates(r) {
      var d :| d in heap && d.state == x;
      var i :| 0 <= i < |heap| && heap[i] == d;
      assert i != k;
      assert d == r[if i < k then i else i - 1];
    }
    assert heap[k] in heap;
  }

  /** The index in `heap` of position `i` once position `k` is removed. */
  function Skip(i: nat, k: nat): nat {
    if i < k then i else i + 1
  }

  lemma RemovedAt(heap: seq<Entry>, k: nat)
    requires k < |heap|
    ensures |heap[..k] + heap[k + 1..]| == |heap| - 1
    ensures forall i :: 0 <= i < |heap| - 1 ==> (heap[..k] + heap[k + 1..])[i] == heap[Skip(i, k)]
  {
  }

  class AStarQueue {
    var heap: seq<Entry>
    var counter: nat
    var members: set<State>

    ghost predicate Valid()
      reads this
    {
      WellFormed(heap, members, counter)
    }

    constructor ()
      ensures Valid() && heap == [] && members == {} && counter == 0
    {
      heap := [];
      counter := 0;
      members := {};
    }

    /** Adding a state that already has an entry changes nothing (there is
        no decrease-key); otherwise the new entry takes the next number. */
    method Add(state: State, f: int, g: int, h: int)
      requires Valid()
      modifies this
      ensures Valid()
      ensures old(state in members) ==> heap == old(heap) && counter == old(counter) && members == old(members)
      ensures old(state !in members) ==>
        heap == old(heap) + [Entry(f, h, g, old(counter), state)]
        && counter == old(counter) + 1 && members == old(members) + {state}
    {
      if state in members {
        return;
      }
      var e := Entry(f, h, g, counter, state);
      Pushed(heap, members, counter, e);
      heap := heap + [e];
      members := members + {state};
      counter := counter + 1;
    }

    /** Removes and returns the least entry; its state is no longer a member. */
    method Pop() returns (state: State, f: int, g: int, h: int)
      requires Valid() && |heap| > 0
      modifies this
      ensures Valid()
      ensures var k := MinIndex(old(heap));
        old(heap)[k] == Entry(f, h, g, old(heap)[k].order, state)
        && heap == old(heap)[..k] + old(heap)[k + 1..]
      ensures forall e :: e in old(heap) ==> EntryLe(Entry(f, h, g, old(heap)[MinIndex(old(heap))].order, state), e)
      ensures forall j :: 0 <= j < |old(heap)| && EntryLe(old(heap)[j], old(heap)[MinIndex(old(heap))]) ==>
        j == MinIndex(old(heap))
      ensures forall e :: e in heap ==> e in old(heap) && e.state != state
      ensures state in old(members) && members == old(members) - {state}
      ensures |heap| == |old(heap)| - 1 && counter == old(counter)
    {
      var k := MinIndex(heap);
      var e := heap[k];
      LeastIsUnique(heap, k);
      Removed(heap, members, counter, k);
      heap := heap[..k] + heap[k + 1..];
      members := members - {e.state};
      state, f, g, h := e.state, e.f, e.g, e.h;
    }

    /** The number of live entries, which is the number of member states. */
    function Len(): (n: nat)
      reads this
      requires Valid()
      ensures n == |members|
    {
      DistinctStatesCount(heap);
      |heap|
    }
  }
}
