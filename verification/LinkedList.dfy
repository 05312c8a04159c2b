/**
 * Intrusive circular lists: a list is a node of its own ring, and an item is in one ring at most. `idleNext` leads from a
 * list to its newest item and on to the oldest, `idlePrev` the other way.
 */
module LinkedList {

  class Node {
    var idleNext: Node?
    var idlePrev: Node?

    constructor ()
      ensures idleNext == null && idlePrev == null
    {
      idleNext, idlePrev := null, null;
    }
  }

  function After(c: seq<Node>, k: nat): nat
    requires k < |c|
  {
    if k + 1 == |c| then 0 else k + 1
  }

  /** The nodes of a ring in the order of `idleNext`, the list itself first. */
  ghost predicate Ring(c: seq<Node>)
    reads c
  {
    && c != []
    && (forall i, j :: 0 <= i < j < |c| ==> c[i] != c[j])
    && (forall k :: 0 <= k < |c| ==> c[k].idleNext == c[After(c, k)] && c[After(c, k)].idlePrev == c[k])
  }

  ghost predicate Loose(x: Node)
    reads x
  {
    x.idleNext == null && x.idlePrev == null
  }

  /** A new list is a ring by itself. */
  method Init(list: Node)
    modifies list
    ensures Ring([list])
  {
    list.idleNext := list;
    list.idlePrev := list;
  }

  /** The items of a list, oldest first: those of its ring without the list itself, backwards. */
  function Queue(c: seq<Node>): (q: seq<Node>)
    requires c != []
    ensures |q| == |c| - 1
  {
    seq(|c| - 1, k requires 0 <= k < |c| - 1 => c[|c| - 1 - k])
  }

  /** The oldest item, or null if there is none. */
  method Peek(list: Node, ghost c: seq<Node>) returns (item: Node?)
    requires Ring(c) && c[0] == list
    ensures if Queue(c) == [] then item == null else item == Queue(c)[0]
  {
    assert c[After(c, |c| - 1)].idlePrev == c[|c| - 1];
    if list.idlePrev == list {
      return null;
    }
    return list.idlePrev;
  }

  method IsEmpty(list: Node, ghost c: seq<Node>) returns (empty: bool)
    requires Ring(c) && c[0] == list
    ensures empty <==> Queue(c) == []
  {
    assert c[0].idleNext == c[After(c, 0)];
    empty := list.idleNext == list;
  }

  ghost function Members(c: seq<Node>): set<Node> { set x | x in c }

  /** Takes an item out of the ring it is in, if it is in one. */
  method Remove(item: Node, ghost c: seq<Node>, ghost p: nat)
    requires c == [] ==> Loose(item)
    requires c != [] ==> Ring(c) && 0 < p < |c| && c[p] == item
    modifies {item} + Members(c)
    ensures Loose(item)
    ensures c != [] ==> Ring(c[..p] + c[p + 1..])
  {
    ghost var loose := c == [];
    ghost var less := if loose then [] else c[..p] + c[p + 1..];
    if !loose { Neighbours(c, p); }
    if item.idleNext != null {
      item.idleNext.idlePrev := item.idlePrev;
    }
    if item.idlePrev != null {
      item.idlePrev.idleNext := item.idleNext;
    }
    item.idleNext := null;
    item.idlePrev := null;
    if !loose {
      forall k | 0 <= k < |less|
        ensures less[k].idleNext == less[After(less, k)] && less[After(less, k)].idlePrev == less[k]
      {
        var j := if k < p then k else k + 1;
        assert less[k] == c[j];
      }
    }
  }

  /** An inner node's links lead to the nodes beside it. */
  lemma Neighbours(c: seq<Node>, p: nat)
    requires Ring(c) && 0 < p < |c|
    ensures c[p].idlePrev == c[p - 1] && c[p].idleNext == c[After(c, p)]
  {
    assert c[After(c, p - 1)].idlePrev == c[p - 1];
  }

  /** A sequence without the element at a place. */
  function Drop(c: seq<Node>, p: nat): seq<Node>
    requires p < |c|
  {
    c[..p] + c[p + 1..]
  }

  /** Puts a loose item behind the list, at the newest end. */
  method Insert(list: Node, item: Node, ghost c: seq<Node>)
    requires Ring(c) && c[0] == list && Loose(item) && item !in c
    modifies item, list, list.idleNext
    ensures Ring([list, item] + c[1..])
  {
    ghost var more := [list, item] + c[1..];
    assert c[0].idleNext == c[After(c, 0)];
    item.idleNext := list.idleNext;
    list.idleNext.idlePrev := item;
    item.idlePrev := list;
    list.idleNext := item;
    forall k | 0 <= k < |more|
      ensures more[k].idleNext == more[After(more, k)] && more[After(more, k)].idlePrev == more[k]
    {
      if k >= 2 { assert more[k] == c[k - 1]; }
    }
  }

  // ----- several lists

  /** Every list is a ring, no node is in two of them, and a node in none of them has no links. */
  ghost predicate World(all: set<Node>, rings: seq<seq<Node>>)
    reads all
  {
    && (forall r, k :: 0 <= r < |rings| && 0 <= k < |rings[r]| ==> rings[r][k] in all)
    && (forall r :: 0 <= r < |rings| ==> Ring(rings[r]))
    && Apart(rings)
    && (forall x :: x in all && (forall r :: 0 <= r < |rings| ==> x !in rings[r]) ==> Loose(x))
  }

  ghost predicate Apart(rings: seq<seq<Node>>) {
    forall q, r, x :: 0 <= q < |rings| && 0 <= r < |rings| && q != r && x in rings[q] ==> x !in rings[r]
  }

  /** Where a node is: in no ring, or at a place in one. */
  datatype Place = Nowhere | In(ring: nat, at: nat)

  ghost predicate At(rings: seq<seq<Node>>, item: Node, place: Place) {
    match place
    case Nowhere => forall r :: 0 <= r < |rings| ==> item !in rings[r]
    case In(r, p) => r < |rings| && 0 < p < |rings[r]| && rings[r][p] == item
  }

  /** The ring an item is in, or nothing. */
  ghost function RingOf(rings: seq<seq<Node>>, place: Place): seq<Node> {
    if place.In? && place.ring < |rings| then rings[place.ring] else []
  }

  function PlaceIn(place: Place): nat { if place.In? then place.at else 0 }

  /** The rings with an item taken out. */
  function TakenOut(rings: seq<seq<Node>>, place: Place): seq<seq<Node>>
    requires place.In? ==> place.ring < |rings| && place.at < |rings[place.ring]|
  {
    if place.Nowhere? then rings else rings[place.ring := Drop(rings[place.ring], place.at)]
  }

  /** The list's ring with an item put in behind the list. */
  function PutIn(rings: seq<seq<Node>>, r: nat, item: Node): seq<seq<Node>>
    requires r < |rings| && rings[r] != []
  {
    rings[r := [rings[r][0], item] + rings[r][1..]]
  }

  /** Takes an item out of whatever list holds it; the other lists stay as they are. */
  method RemoveFrom(item: Node, ghost all: set<Node>, ghost rings: seq<seq<Node>>, ghost place: Place)
    requires World(all, rings) && item in all && At(rings, item, place)
    modifies all
    ensures World(all, TakenOut(rings, place)) && At(TakenOut(rings, place), item, Nowhere)
  {
    Remove(item, RingOf(rings, place), PlaceIn(place));
    ghost var c, out := RingOf(rings, place), TakenOut(rings, place);
    if place.In? { DropMembers(c, place.at); }
    forall q | 0 <= q < |out|
      ensures Ring(out[q])
    {
      if place.In? && q == place.ring {
        assert out[q] == c[..place.at] + c[place.at + 1..];
      } else {
        ghost var d := rings[q];
        assert old(Ring(d));
        Elsewhere(rings, place, item, q);
        forall k | 0 <= k < |d| ensures d[k].idleNext == d[After(d, k)] && d[After(d, k)].idlePrev == d[k] {
          assert d[k] in d && d[After(d, k)] in d;
        }
      }
    }
    TakenOutApart(all, rings, place, item);
  }

  lemma DropMembers(c: seq<Node>, p: nat)
    requires p < |c| && forall i, j :: 0 <= i < j < |c| ==> c[i] != c[j]
    ensures forall x :: x in Drop(c, p) <==> x in c && x != c[p]
  {
    forall x | x in c && x != c[p] ensures x in Drop(c, p) {
      var k :| 0 <= k < |c| && c[k] == x;
      assert Drop(c, p)[if k < p then k else k - 1] == x;
    }
  }

  lemma Elsewhere(rings: seq<seq<Node>>, place: Place, item: Node, q: nat)
    requires Apart(rings) && At(rings, item, place) && q < |rings| && (place.In? ==> q != place.ring)
    ensures forall x :: x in rings[q] ==> x != item && x !in RingOf(rings, place)
  {
    if place.In? { assert item in rings[place.ring]; }
  }

  /** Taking out keeps the rings apart, and only the item comes to be in none. */
  lemma TakenOutApart(all: set<Node>, rings: seq<seq<Node>>, place: Place, item: Node)
    requires Apart(rings) && At(rings, item, place)
    requires forall r, k :: 0 <= r < |rings| && 0 <= k < |rings[r]| ==> rings[r][k] in all
    requires place.In? ==> forall i, j :: 0 <= i < j < |rings[place.ring]| ==> rings[place.ring][i] != rings[place.ring][j]
    ensures var out := TakenOut(rings, place);
            && Apart(out) && At(out, item, Nowhere)
            && (forall r, k :: 0 <= r < |out| && 0 <= k < |out[r]| ==> out[r][k] in all)
            && (forall x :: x in all && x != item && (forall r :: 0 <= r < |out| ==> x !in out[r]) ==> (forall r :: 0 <= r < |rings| ==> x !in rings[r]))
  {
    var out := TakenOut(rings, place);
    if place.In? {
      var c := rings[place.ring];
      DropMembers(c, place.at);
      forall r, k | 0 <= r < |out| && 0 <= k < |out[r]| ensures out[r][k] in all {
        assert out[r][k] in rings[r];
      }
    }
    forall x | x in all && x != item && (forall r :: 0 <= r < |out| ==> x !in out[r]) ensures forall r :: 0 <= r < |rings| ==> x !in rings[r] {
      forall r | 0 <= r < |rings| ensures x !in rings[r] { assert x !in out[r]; }
    }
  }

  /** Putting in keeps the rings apart. */
  lemma PutInApart(all: set<Node>, rings: seq<seq<Node>>, r: nat, item: Node)
    requires Apart(rings) && At(rings, item, Nowhere) && item in all && r < |rings| && rings[r] != []
    requires forall q, k :: 0 <= q < |rings| && 0 <= k < |rings[q]| ==> rings[q][k] in all
    ensures var out := PutIn(rings, r, item);
            && Apart(out)
            && (forall q, k :: 0 <= q < |out| && 0 <= k < |out[q]| ==> out[q][k] in all)
            && (forall x :: x in all && (forall q :: 0 <= q < |out| ==> x !in out[q]) ==> x != item && (forall q :: 0 <= q < |rings| ==> x !in rings[q]))
  {
    var out := PutIn(rings, r, item);
    var c := rings[r];
    forall x ensures x in out[r] <==> x in c || x == item {
      if x in c {
        var k :| 0 <= k < |c| && c[k] == x;
        assert out[r][if k == 0 then 0 else k + 1] == x;
      }
      assert out[r][1] == item;
    }
    forall q, k | 0 <= q < |out| && 0 <= k < |out[q]| ensures out[q][k] in all {
      assert out[q][k] in out[q];
    }
    forall x | x in all && (forall q :: 0 <= q < |out| ==> x !in out[q]) ensures x != item && forall q :: 0 <= q < |rings| ==> x !in rings[q] {
      assert x !in out[r];
      forall q | 0 <= q < |rings| ensures x !in rings[q] { assert x !in out[q]; }
    }
  }

  /** Makes a node that is in no list a new list; before the first one no node has links. */
  method InitList(list: Node, ghost all: set<Node>, ghost rings: seq<seq<Node>>)
    requires World(all, rings) && list in all && At(rings, list, Nowhere)
    modifies all
    ensures World(all, rings + [[list]])
  {
    Init(list);
    ghost var more := rings + [[list]];
    forall q | 0 <= q < |more| ensures Ring(more[q]) {
      if q < |rings| {
        ghost var d := rings[q];
        assert old(Ring(d));
        forall k | 0 <= k < |d| ensures d[k].idleNext == d[After(d, k)] && d[After(d, k)].idlePrev == d[k] {
          assert d[k] in d && d[After(d, k)] in d;
        }
      }
    }
    forall x | x in all && (forall r :: 0 <= r < |more| ==> x !in more[r]) ensures x != list && forall r :: 0 <= r < |rings| ==> x !in rings[r] {
      assert x !in more[|rings|];
      forall r | 0 <= r < |rings| ensures x !in rings[r] { assert x !in more[r]; }
    }
  }

  /** Puts an item at the newest end of a list, out of whatever list holds it. */
  method Append(list: Node, item: Node, ghost all: set<Node>, ghost rings: seq<seq<Node>>, ghost place: Place, ghost r: nat)
    requires World(all, rings) && item in all && At(rings, item, place) && r < |rings| && rings[r][0] == list
    modifies all
    ensures World(all, PutIn(TakenOut(rings, place), r, item))
  {
    RemoveFrom(item, all, rings, place);
    InsertInto(list, item, all, TakenOut(rings, place), r);
  }

  method InsertInto(list: Node, item: Node, ghost all: set<Node>, ghost rings: seq<seq<Node>>, ghost r: nat)
    requires World(all, rings) && item in all && At(rings, item, Nowhere) && r < |rings| && rings[r][0] == list
    modifies all
    ensures World(all, PutIn(rings, r, item))
  {
    assert rings[r][0].idleNext == rings[r][After(rings[r], 0)];
    Insert(list, item, rings[r]);
    ghost var c, out := rings[r], PutIn(rings, r, item);
    forall q | 0 <= q < |out|
      ensures Ring(out[q])
    {
      if q != r {
        ghost var d := rings[q];
        assert old(Ring(d));
        forall x | x in d ensures x in all && x != item && x !in c {}
        forall k | 0 <= k < |d| ensures d[k].idleNext == d[After(d, k)] && d[After(d, k)].idlePrev == d[k] {
          assert d[k] in d && d[After(d, k)] in d;
        }
      }
    }
    PutInApart(all, rings, r, item);
  }

  /** Takes the item at the old end off a list that is not empty. */
  method Shift(list: Node, ghost all: set<Node>, ghost rings: seq<seq<Node>>, ghost r: nat) returns (first: Node)
    requires World(all, rings) && r < |rings| && rings[r][0] == list && Queue(rings[r]) != []
    modifies all
    ensures first == Queue(rings[r])[0] && World(all, TakenOut(rings, In(r, |rings[r]| - 1)))
    ensures At(TakenOut(rings, In(r, |rings[r]| - 1)), first, Nowhere)
  {
    ghost var c := rings[r];
    assert c[After(c, |c| - 1)].idlePrev == c[|c| - 1];
    first := list.idlePrev;
    RemoveFrom(first, all, rings, In(r, |c| - 1));
  }

  /** `shift` does not look whether the list is empty: an empty list loses its own links and is no list any more. */
  method ShiftEmpty(list: Node) returns (first: Node)
    requires Ring([list])
    modifies list
    ensures first == list && Loose(list) && !Ring([list])
  {
    assert [list][After([list], 0)] == list && [list][0].idleNext == list;
    first := list.idlePrev;
    first.idleNext.idlePrev := first.idlePrev;
    first.idlePrev.idleNext := first.idleNext;
    first.idleNext := null;
    first.idlePrev := null;
    assert [list][0].idleNext == null;
  }

  // ----- what that means for the queues

  /** Taking out a node takes its item out of the queue and leaves the others in order. */
  lemma QueueDrop(c: seq<Node>, p: nat)
    requires 0 < p < |c|
    ensures var q := Queue(c);
            Queue(Drop(c, p)) == q[..|c| - 1 - p] + q[|c| - p..] && q[|c| - 1 - p] == c[p]
  {
  }

  /** Putting an item in puts it at the end of the queue. */
  lemma QueuePut(c: seq<Node>, item: Node)
    requires c != []
    ensures Queue([c[0], item] + c[1..]) == Queue(c) + [item]
  {
  }

  /** Appending moves the item to the end of the list's queue; the other items of all lists keep their order. */
  lemma AppendQueues(rings: seq<seq<Node>>, place: Place, r: nat, item: Node, q: nat)
    requires At(rings, item, place) && r < |rings| && q < |rings| && forall k :: 0 <= k < |rings| ==> rings[k] != []
    ensures var out := PutIn(TakenOut(rings, place), r, item);
            var left := if place.In? && place.ring == q then Queue(Drop(rings[q], place.at)) else Queue(rings[q]);
            Queue(out[q]) == if q == r then left + [item] else left
  {
    QueuePut(TakenOut(rings, place)[r], item);
  }

  /** Shifting takes the first of the queue. */
  lemma ShiftQueue(c: seq<Node>)
    requires |c| > 1
    ensures Queue(Drop(c, |c| - 1)) == Queue(c)[1..]
  {
    QueueDrop(c, |c| - 1);
  }
}
