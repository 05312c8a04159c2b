/** Runs of the idle lists: whatever the order of calls, a list gives its items back in the order of their last append. */
module LinkedListRuns {
  import opened LinkedList

  /** A call: of `init`, of `append` or `remove` for an item at some place, or of `shift` for a list that is not empty. */
  datatype Event =
    | EInit(list: Node)
    | EAppend(item: Node, place: Place, r: nat)
    | ERemove(item: Node, place: Place)
    | EShift(r: nat)

  /** An item that `shift` gave back, and the number of calls before. */
  datatype Shifted = Shifted(item: Node, before: nat)

  /** The rings, and what each list has given back so far. */
  datatype State = State(rings: seq<seq<Node>>, out: seq<seq<Shifted>>, calls: nat)

  function Start(): State { State([], [], 0) }

  ghost predicate Enabled(s: State, e: Event) {
    match e
    case EInit(list) => At(s.rings, list, Nowhere)
    case EAppend(item, place, r) => At(s.rings, item, place) && r < |s.rings| && s.rings[r] != []
    case ERemove(item, place) => At(s.rings, item, place)
    case EShift(r) => r < |s.rings| && r < |s.out| && |s.rings[r]| > 1
  }

  ghost function Step(s: State, e: Event): State
    requires Enabled(s, e)
  {
    match e
    case EInit(list) => State(s.rings + [[list]], s.out + [[]], s.calls + 1)
    case EAppend(item, place, r) =>
      s.(rings := PutIn(TakenOut(s.rings, place), r, item), calls := s.calls + 1)
    case ERemove(item, place) => s.(rings := TakenOut(s.rings, place), calls := s.calls + 1)
    case EShift(r) =>
      s.(rings := TakenOut(s.rings, In(r, |s.rings[r]| - 1)),
         out := s.out[r := s.out[r] + [Shifted(s.rings[r][|s.rings[r]| - 1], s.calls)]], calls := s.calls + 1)
  }

  /** Each call can be made where the calls before it have led. */
  ghost predicate Possible(events: seq<Event>)
    decreases |events|, 0
  {
    events == [] || (Possible(events[..|events| - 1]) && Enabled(StateAfter(events[..|events| - 1]), events[|events| - 1]))
  }

  ghost function StateAfter(events: seq<Event>): State
    requires Possible(events)
    decreases |events|, 1
  {
    if events == [] then Start() else Step(StateAfter(events[..|events| - 1]), events[|events| - 1])
  }

  /** When an item was last appended, counted from one; nought if it never was. */
  ghost function LastAppend(events: seq<Event>, x: Node): (t: nat)
    ensures t <= |events|
    decreases |events|
  {
    if events == [] then 0
    else
      var n := |events| - 1;
      if events[n].EAppend? && events[n].item == x then n + 1 else LastAppend(events[..n], x)
  }

  // ----- the calls do what the steps say

  ghost predicate Heads(lists: seq<Node>, rings: seq<seq<Node>>) {
    |lists| == |rings| && forall r :: 0 <= r < |lists| ==> rings[r] != [] && rings[r][0] == lists[r]
  }

  /** The node a call is made for. */
  ghost function NodeOf(e: Event): set<Node> {
    match e
    case EInit(list) => {list}
    case EAppend(item, _, _) => {item}
    case ERemove(item, _) => {item}
    case EShift(_) => {}
  }

  /** Does one call on the objects. */
  method Do(lists: seq<Node>, e: Event, ghost all: set<Node>, ghost s: State) returns (first: Node?)
    requires World(all, s.rings) && Enabled(s, e)
    requires Heads(lists, s.rings) && NodeOf(e) <= all
    modifies all
    ensures World(all, Step(s, e).rings)
    ensures e.EShift? ==> first == Queue(s.rings[e.r])[0] && Step(s, e).out[e.r] == s.out[e.r] + [Shifted(first, s.calls)]
  {
    hide World, At;
    first := null;
    match e {
      case EInit(list) =>
        InitList(list, all, s.rings);
      case EAppend(item, place, r) =>
        HeadStays(s.rings, item, place, r);
        Append(lists[r], item, all, s.rings, place, r);
      case ERemove(item, place) =>
        RemoveFrom(item, all, s.rings, place);
      case EShift(r) =>
        first := Shift(lists[r], all, s.rings, r);
    }
  }

  /** Taking an item out of a ring leaves the list itself in its place. */
  lemma HeadStays(rings: seq<seq<Node>>, item: Node, place: Place, r: nat)
    requires At(rings, item, place) && r < |rings| && rings[r] != []
    ensures var out := TakenOut(rings, place); |out| == |rings| && out[r] != [] && out[r][0] == rings[r][0]
  {
  }

  lemma HeadsKept(lists: seq<Node>, s: State, e: Event)
    requires Enabled(s, e) && Heads(lists, s.rings)
    ensures Heads(if e.EInit? then lists + [e.list] else lists, Step(s, e).rings)
  {
  }

  lemma {:induction false} Prefixes(events: seq<Event>, i: nat)
    requires Possible(events) && i <= |events|
    ensures Possible(events[..i])
    ensures i < |events| ==> events[..i + 1][..i] == events[..i] && Enabled(StateAfter(events[..i]), events[i])
    decreases |events|
  {
    hide Enabled;
    var n := |events| - 1;
    if i == |events| {
      assert events[..i] == events;
    } else if i < n {
      Prefixes(events[..n], i);
      assert events[..n][..i] == events[..i];
    }
  }

  /** Does a whole run on nodes that have no links at first. */
  method DoAll(events: seq<Event>, ghost all: set<Node>)
    requires Possible(events) && forall x :: x in all ==> Loose(x)
    requires forall k :: 0 <= k < |events| ==> NodeOf(events[k]) <= all
    modifies all
    ensures World(all, StateAfter(events).rings)
  {
    hide World, Possible, Enabled, Step, Heads;
    var lists: seq<Node> := [];
    NoRings(all);
    for i := 0 to |events|
      invariant Possible(events[..i]) && World(all, StateAfter(events[..i]).rings) && Heads(lists, StateAfter(events[..i]).rings)
    {
      ghost var s := StateAfter(events[..i]);
      Prefixes(events, i);
      Prefixes(events, i + 1);
      HeadsKept(lists, s, events[i]);
      var _ := Do(lists, events[i], all, s);
      if events[i].EInit? {
        lists := lists + [events[i].list];
      }
      assert events[..i + 1][|events[..i + 1]| - 1] == events[i];
    }
    assert events[..|events|] == events;
  }

  lemma NoRings(all: set<Node>)
    requires forall x :: x in all ==> Loose(x)
    ensures Possible([]) && World(all, StateAfter([]).rings) && Heads([], StateAfter([]).rings)
  {
  }

  // ----- the order of a queue

  /** No node is in two places. */
  ghost predicate Unique(rings: seq<seq<Node>>) {
    forall q, r, i, j :: 0 <= q < |rings| && 0 <= r < |rings| && 0 <= i < |rings[q]| && 0 <= j < |rings[r]| && rings[q][i] == rings[r][j] ==>
      q == r && i == j
  }

  /** The items of a ring behind the list, newest first, all appended later than `t`. */
  ghost predicate NewestFirst(events: seq<Event>, c: seq<Node>, t: nat) {
    c != [] &&
    (forall i, j :: 1 <= i < j < |c| ==> LastAppend(events, c[i]) > LastAppend(events, c[j])) &&
    (forall i :: 1 <= i < |c| ==> LastAppend(events, c[i]) > t)
  }

  /** When the item given back had last been appended. */
  ghost function TimeOf(events: seq<Event>, x: Shifted): nat {
    if x.before <= |events| then LastAppend(events[..x.before], x.item) else 0
  }

  ghost predicate Increasing(events: seq<Event>, out: seq<Shifted>) {
    (forall k :: 0 <= k < |out| ==> out[k].before < |events| && TimeOf(events, out[k]) > 0) &&
    (forall i, j :: 0 <= i < j < |out| ==> TimeOf(events, out[i]) < TimeOf(events, out[j]))
  }

  ghost function LastTime(events: seq<Event>, out: seq<Shifted>): nat { if out == [] then 0 else TimeOf(events, out[|out| - 1]) }

  ghost predicate Inv(events: seq<Event>, s: State) {
    s.calls == |events| && |s.out| == |s.rings| && Unique(s.rings) &&
    forall r :: 0 <= r < |s.rings| ==> NewestFirst(events, s.rings[r], LastTime(events, s.out[r])) && Increasing(events, s.out[r])
  }

  // ----- one more call

  lemma OneMore(events: seq<Event>, e: Event, x: Node)
    ensures LastAppend(events + [e], x) == if e.EAppend? && e.item == x then |events| + 1 else LastAppend(events, x)
  {
    assert (events + [e])[..|events|] == events;
  }

  /** What was given back before stays as it is. */
  lemma OutStays(events: seq<Event>, e: Event, out: seq<Shifted>)
    requires Increasing(events, out)
    ensures Increasing(events + [e], out) && LastTime(events + [e], out) == LastTime(events, out)
  {
    forall k | 0 <= k < |out| ensures TimeOf(events + [e], out[k]) == TimeOf(events, out[k]) {
      assert (events + [e])[..out[k].before] == events[..out[k].before];
    }
  }

  lemma RingStays(events: seq<Event>, e: Event, c: seq<Node>, t: nat)
    requires NewestFirst(events, c, t) && (e.EAppend? ==> forall i :: 1 <= i < |c| ==> c[i] != e.item)
    ensures NewestFirst(events + [e], c, t)
  {
    forall i | 1 <= i < |c| ensures LastAppend(events + [e], c[i]) == LastAppend(events, c[i]) { OneMore(events, e, c[i]); }
  }

  lemma DropStays(events: seq<Event>, c: seq<Node>, p: nat, t: nat)
    requires NewestFirst(events, c, t) && 0 < p < |c|
    ensures NewestFirst(events, Drop(c, p), t)
  {
    var d := Drop(c, p);
    forall i | 0 <= i < |d| ensures d[i] == c[if i < p then i else i + 1] {}
  }

  /** Taking an item out leaves every node in one place, and the item in none. */
  lemma TakenOutUnique(rings: seq<seq<Node>>, item: Node, place: Place)
    requires Unique(rings) && At(rings, item, place)
    ensures var out := TakenOut(rings, place); Unique(out) && forall r, k :: 0 <= r < |out| && 0 <= k < |out[r]| ==> out[r][k] != item
  {
    var out := TakenOut(rings, place);
    if place.In? {
      var p := place.at;
      forall r, k | 0 <= r < |out| && 0 <= k < |out[r]|
        ensures out[r][k] == rings[r][if r == place.ring && k >= p then k + 1 else k] && out[r][k] != item
      {
      }
    } else {
      forall r, k | 0 <= r < |out| && 0 <= k < |out[r]| ensures out[r][k] != item { assert out[r][k] in rings[r]; }
    }
  }

  lemma PutInUnique(rings: seq<seq<Node>>, r: nat, item: Node)
    requires Unique(rings) && r < |rings| && rings[r] != []
    requires forall q, k :: 0 <= q < |rings| && 0 <= k < |rings[q]| ==> rings[q][k] != item
    ensures Unique(PutIn(rings, r, item))
  {
    var out := PutIn(rings, r, item);
    forall q, k | 0 <= q < |out| && 0 <= k < |out[q]|
      ensures if q == r && k == 1 then out[q][k] == item else out[q][k] == rings[q][if q == r && k > 1 then k - 1 else k]
    {
    }
  }

  lemma TakenOutInv(events: seq<Event>, s: State, item: Node, place: Place)
    requires Inv(events, s) && At(s.rings, item, place)
    ensures Inv(events, s.(rings := TakenOut(s.rings, place)))
  {
    hide NewestFirst, Increasing, Unique;
    TakenOutUnique(s.rings, item, place);
    if place.In? { DropStays(events, s.rings[place.ring], place.at, LastTime(events, s.out[place.ring])); }
  }

  /** A call that appends nothing and gives nothing back keeps the order. */
  lemma CallInv(events: seq<Event>, s: State, e: Event)
    requires Inv(events, s)
    requires e.EAppend? ==> forall r, k :: 0 <= r < |s.rings| && 0 <= k < |s.rings[r]| ==> s.rings[r][k] != e.item
    ensures Inv(events + [e], s.(calls := s.calls + 1))
  {
    hide NewestFirst, Increasing, Unique, LastTime;
    forall r | 0 <= r < |s.rings|
      ensures NewestFirst(events + [e], s.rings[r], LastTime(events + [e], s.out[r])) && Increasing(events + [e], s.out[r])
    {
      OutStays(events, e, s.out[r]);
      RingStays(events, e, s.rings[r], LastTime(events, s.out[r]));
    }
  }

  lemma AppendInv(events: seq<Event>, s: State, e: Event)
    requires Inv(events, s) && e.EAppend? && Enabled(s, e)
    ensures Inv(events + [e], Step(s, e))
  {
    hide Increasing, Unique;
    var (item, r) := (e.item, e.r);
    TakenOutInv(events, s, item, e.place);
    TakenOutUnique(s.rings, item, e.place);
    var s1 := s.(rings := TakenOut(s.rings, e.place));
    CallInv(events, s1, e);
    PutInUnique(s1.rings, r, item);
    var c, t := s1.rings[r], LastTime(events + [e], s.out[r]);
    var d := [c[0], item] + c[1..];
    OneMore(events, e, item);
    forall i | 2 <= i < |d| ensures d[i] == c[i - 1] && LastAppend(events + [e], d[i]) <= |events| { OneMore(events, e, d[i]); }
    TimeBound(events + [e], s.out[r]);
    assert NewestFirst(events + [e], d, t);
  }

  lemma TimeBound(events: seq<Event>, out: seq<Shifted>)
    requires Increasing(events, out)
    ensures LastTime(events, out) < |events| || out == []
  {
  }

  lemma ShiftInv(events: seq<Event>, s: State, r: nat)
    requires Inv(events, s) && Enabled(s, EShift(r))
    ensures Inv(events + [EShift(r)], Step(s, EShift(r)))
  {
    hide Unique;
    var e, c := EShift(r), s.rings[r];
    var p := |c| - 1;
    var given := Shifted(c[p], s.calls);
    assert At(s.rings, c[p], In(r, p));
    TakenOutInv(events, s, c[p], In(r, p));
    var s1 := s.(rings := TakenOut(s.rings, In(r, p)));
    CallInv(events, s1, e);
    var more := events + [e];
    assert more[..|events|] == events;
    assert TimeOf(more, given) == LastAppend(events, c[p]);
    OutStays(events, e, s.out[r]);
    assert Increasing(more, s.out[r] + [given]) by { GivenLater(more, s.out[r], given); }
    assert NewestFirst(more, Drop(c, p), LastAppend(events, c[p])) by {
      forall i | 1 <= i < p ensures Drop(c, p)[i] == c[i] && LastAppend(more, c[i]) == LastAppend(events, c[i]) { OneMore(events, e, c[i]); }
    }
  }

  lemma GivenLater(events: seq<Event>, out: seq<Shifted>, x: Shifted)
    requires Increasing(events, out) && x.before < |events| && TimeOf(events, x) > LastTime(events, out)
    ensures Increasing(events, out + [x])
  {
  }

  lemma StepInv(events: seq<Event>, s: State, e: Event)
    requires Inv(events, s) && Enabled(s, e)
    ensures Inv(events + [e], Step(s, e))
  {
    hide NewestFirst, Increasing;
    match e
    case EInit(list) => InitInv(events, s, list);
    case EAppend(_, _, _) => AppendInv(events, s, e);
    case ERemove(item, place) =>
      TakenOutInv(events, s, item, place);
      CallInv(events, s.(rings := TakenOut(s.rings, place)), e);
    case EShift(r) => ShiftInv(events, s, r);
  }

  lemma InitInv(events: seq<Event>, s: State, list: Node)
    requires Inv(events, s) && At(s.rings, list, Nowhere)
    ensures Inv(events + [EInit(list)], Step(s, EInit(list)))
  {
    CallInv(events, s, EInit(list));
    var more := s.rings + [[list]];
    forall q, k | 0 <= q < |s.rings| && 0 <= k < |s.rings[q]| ensures s.rings[q][k] != list { assert s.rings[q][k] in s.rings[q]; }
  }

  lemma {:induction false} RunInv(events: seq<Event>)
    requires Possible(events)
    ensures Inv(events, StateAfter(events))
    decreases |events|
  {
    hide Inv, Enabled, Step;
    if events == [] {
      StartInv();
    } else {
      var n := |events| - 1;
      RunInv(events[..n]);
      StepInv(events[..n], StateAfter(events[..n]), events[n]);
      assert events[..n] + [events[n]] == events;
    }
  }

  lemma StartInv()
    ensures Inv([], Start())
  {
  }

  // ----- the theorems

  /** In every run of calls each list holds its items in the order of their last append, and every item has one. */
  lemma QueuesInOrder(events: seq<Event>, r: nat)
    requires Possible(events) && r < |StateAfter(events).rings|
    ensures StateAfter(events).rings[r] != []
    ensures var q := Queue(StateAfter(events).rings[r]);
            (forall k :: 0 <= k < |q| ==> LastAppend(events, q[k]) > 0) &&
            (forall i, j :: 0 <= i < j < |q| ==> LastAppend(events, q[i]) < LastAppend(events, q[j]))
  {
    hide Possible, StateAfter, LastAppend;
    RunInv(events);
  }

  /** In every run what a list gives back comes in the order in which it had last been appended before it was given back, and
      everything still in the list was appended later. */
  lemma ShiftsInOrder(events: seq<Event>, r: nat)
    requires Possible(events) && r < |StateAfter(events).rings|
    ensures r < |StateAfter(events).out| && StateAfter(events).rings[r] != []
    ensures var out, q := StateAfter(events).out[r], Queue(StateAfter(events).rings[r]);
            (forall k :: 0 <= k < |out| ==> out[k].before < |events|) &&
            (forall i, j :: 0 <= i < j < |out| ==>
               0 < LastAppend(events[..out[i].before], out[i].item) < LastAppend(events[..out[j].before], out[j].item)) &&
            (forall i, k :: 0 <= i < |out| && 0 <= k < |q| ==>
               LastAppend(events[..out[i].before], out[i].item) < LastAppend(events, q[k]))
  {
    hide Possible, StateAfter, LastAppend;
    RunInv(events);
    var out, q := StateAfter(events).out[r], Queue(StateAfter(events).rings[r]);
    forall k | 0 <= k < |out| ensures TimeOf(events, out[k]) == LastAppend(events[..out[k].before], out[k].item) {}
    forall i, k | 0 <= i < |out| && 0 <= k < |q| ensures TimeOf(events, out[i]) < LastAppend(events, q[k]) {
      assert TimeOf(events, out[i]) <= LastTime(events, out);
    }
  }
}
