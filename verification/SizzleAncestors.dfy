/**
 * Matching along ancestors or preceding siblings, with the results of a run kept on the elements. All elements visited in
 * one call share one result cell, so that the outcome reaches those visited earlier, and all combinators of one direction
 * use the same slot of an element.
 */
module SizzleAncestors {
  import opened Wrappers

  type Elem = nat

  datatype Direction = ParentNode | PreviousSibling

  /** A document as the matchers see it: the walk in either direction, node types, and what simple filters say. */
  datatype Document = Document(
    next: (Elem, Direction) -> Option<Elem>,
    isElement: Elem -> bool,
    holds: (nat, Elem) -> bool,
    ghost rank: (Elem, Direction) -> nat)

  /** Walking on in one direction comes to an end. */
  ghost predicate Finite(doc: Document) {
    forall e, d :: doc.next(e, d).Some? ==> doc.rank(doc.next(e, d).value, d) < doc.rank(e, d)
  }

  /**
   * A compiled matcher: a simple filter, several that all have to match, or a combinator. `first` combinators look at the nearest
   * element only; `base` ones also look at nodes that are not elements, if they walk to parents.
   */
  datatype Matcher =
    | Filter(id: nat)
    | All(matchers: seq<Matcher>)
    | Combinator(dir: Direction, first: bool, base: bool, doneName: nat, inner: Matcher)

  predicate Looks(doc: Document, c: Matcher, e: Elem)
    requires c.Combinator?
  {
    doc.isElement(e) || (c.base && c.dir.ParentNode?)
  }

  // ----- what a matcher says, without any cache

  ghost predicate Matches(doc: Document, m: Matcher, e: Elem)
    requires Finite(doc)
    decreases m, 1, 0
  {
    match m
    case Filter(id) => doc.holds(id, e)
    case All(ms) => forall k :: 0 <= k < |ms| ==> Matches(doc, ms[k], e)
    case Combinator(dir, first, _, _, _) => if first then Nearest(doc, m, doc.next(e, dir)) else Somewhere(doc, m, doc.next(e, dir))
  }

  ghost predicate Nearest(doc: Document, c: Matcher, x: Option<Elem>)
    requires Finite(doc) && c.Combinator?
    decreases c, 0, if x.Some? then 1 + doc.rank(x.value, c.dir) else 0
  {
    x.Some? && if Looks(doc, c, x.value) then Matches(doc, c.inner, x.value) else Nearest(doc, c, doc.next(x.value, c.dir))
  }

  /** Some node from `x` on matches. */
  ghost predicate Somewhere(doc: Document, c: Matcher, x: Option<Elem>)
    requires Finite(doc) && c.Combinator?
    decreases c, 0, if x.Some? then 1 + doc.rank(x.value, c.dir) else 0
  {
    x.Some? && ((Looks(doc, c, x.value) && Matches(doc, c.inner, x.value)) || Somewhere(doc, c, doc.next(x.value, c.dir)))
  }

  lemma OneFurther(doc: Document, c: Matcher, x: Elem)
    requires Finite(doc) && c.Combinator? && Looks(doc, c, x)
    ensures Somewhere(doc, c, Some(x)) <==> Matches(doc, c.inner, x) || Somewhere(doc, c, doc.next(x, c.dir))
  {
  }

  // ----- the same along the walk

  /** The node `n` steps on from `x`. */
  function Walk(doc: Document, x: Option<Elem>, d: Direction, n: nat): Option<Elem>
    decreases n
  {
    if n == 0 || x.None? then x else Walk(doc, doc.next(x.value, d), d, n - 1)
  }

  /** A node that the combinator looks at: an element, or any node if it is a base one that walks to parents. */
  predicate SeenAt(doc: Document, c: Matcher, x: Option<Elem>, n: nat)
    requires c.Combinator?
  {
    var y := Walk(doc, x, c.dir, n);
    y.Some? && (doc.isElement(y.value) || (c.base && c.dir == ParentNode))
  }

  ghost predicate MatchesAt(doc: Document, c: Matcher, x: Option<Elem>, n: nat)
    requires Finite(doc) && c.Combinator?
  {
    SeenAt(doc, c, x, n) && Matches(doc, c.inner, Walk(doc, x, c.dir, n).value)
  }

  lemma {:induction false} SomewhereIs(doc: Document, c: Matcher, x: Option<Elem>)
    requires Finite(doc) && c.Combinator?
    ensures Somewhere(doc, c, x) <==> exists n: nat :: MatchesAt(doc, c, x, n)
    decreases if x.Some? then 1 + doc.rank(x.value, c.dir) else 0
  {
    hide Matches;
    if x.Some? {
      var y := doc.next(x.value, c.dir);
      SomewhereIs(doc, c, y);
      forall n: nat ensures MatchesAt(doc, c, x, n + 1) == MatchesAt(doc, c, y, n) { assert Walk(doc, x, c.dir, n + 1) == Walk(doc, y, c.dir, n); }
      if n: nat :| MatchesAt(doc, c, x, n) && n > 0 { assert MatchesAt(doc, c, y, n - 1); }
      assert Looks(doc, c, x.value) && Matches(doc, c.inner, x.value) <==> MatchesAt(doc, c, x, 0);
      if n: nat :| MatchesAt(doc, c, y, n) { assert MatchesAt(doc, c, x, n + 1); }
    }
  }

  lemma {:induction false} NearestIs(doc: Document, c: Matcher, x: Option<Elem>)
    requires Finite(doc) && c.Combinator?
    ensures Nearest(doc, c, x) <==> exists n: nat :: MatchesAt(doc, c, x, n) && forall j :: 0 <= j < n ==> !SeenAt(doc, c, x, j)
    decreases if x.Some? then 1 + doc.rank(x.value, c.dir) else 0
  {
    hide Matches;
    if x.Some? {
      var y := doc.next(x.value, c.dir);
      NearestIs(doc, c, y);
      forall n: nat ensures MatchesAt(doc, c, x, n + 1) == MatchesAt(doc, c, y, n) && SeenAt(doc, c, x, n + 1) == SeenAt(doc, c, y, n) {
        assert Walk(doc, x, c.dir, n + 1) == Walk(doc, y, c.dir, n);
      }
      assert Looks(doc, c, x.value) == SeenAt(doc, c, x, 0) && (SeenAt(doc, c, x, 0) ==> Matches(doc, c.inner, x.value) == MatchesAt(doc, c, x, 0));
      if n: nat :| MatchesAt(doc, c, x, n) && forall j :: 0 <= j < n ==> !SeenAt(doc, c, x, j) {
        if n > 0 {
          forall j | 0 <= j < n - 1 ensures !SeenAt(doc, c, y, j) { assert !SeenAt(doc, c, x, j + 1); }
          assert MatchesAt(doc, c, y, n - 1);
        }
      }
      if n: nat :| MatchesAt(doc, c, y, n) && forall j :: 0 <= j < n ==> !SeenAt(doc, c, y, j) {
        if !SeenAt(doc, c, x, 0) {
          forall j | 0 <= j < n + 1 ensures !SeenAt(doc, c, x, j) { if j > 0 { assert !SeenAt(doc, c, y, j - 1); } }
          assert MatchesAt(doc, c, x, n + 1);
        }
      }
    }
  }

  /** What a combinator says of a node: that some node beyond it that it looks at matches, or that the nearest one does. */
  lemma CombinatorIs(doc: Document, c: Matcher, e: Elem)
    requires Finite(doc) && c.Combinator?
    ensures var x := doc.next(e, c.dir);
            Matches(doc, c, e) <==> exists n: nat :: MatchesAt(doc, c, x, n) && (c.first ==> forall j :: 0 <= j < n ==> !SeenAt(doc, c, x, j))
  {
    hide SeenAt, MatchesAt;
    var x := doc.next(e, c.dir);
    SomewhereIs(doc, c, x);
    NearestIs(doc, c, x);
  }

  // ----- names

  /** The names of the combinators in a matcher. */
  ghost function Names(m: Matcher): set<nat> {
    match m
    case Filter(_) => {}
    case All(ms) => set k: nat, n: nat | k < |ms| && n in Names(ms[k]) :: n
    case Combinator(_, _, _, name, inner) => {name} + Names(inner)
  }

  /** A name stands for one combinator. */
  ghost predicate Registered(named: nat -> Matcher, m: Matcher) {
    match m
    case Filter(_) => true
    case All(ms) => forall k :: 0 <= k < |ms| ==> Registered(named, ms[k])
    case Combinator(_, _, _, name, inner) => named(name) == m && Registered(named, inner)
  }

  /** What is registered under a name in a matcher is the matcher or part of it. */
  lemma {:induction false} NameInside(named: nat -> Matcher, m: Matcher, n: nat)
    requires Registered(named, m) && n in Names(m)
    ensures named(n).Combinator? && (named(n) == m || named(n) < m)
  {
    match m
    case Filter(_) =>
    case All(ms) =>
      var k: nat :| k < |ms| && n in Names(ms[k]);
      NameInside(named, ms[k], n);
    case Combinator(_, _, _, name, inner) => if n != name { NameInside(named, inner, n); }
  }

  /** A combinator does not occur within itself. */
  lemma NameOutside(named: nat -> Matcher, m: Matcher)
    requires Registered(named, m) && m.Combinator?
    ensures m.doneName !in Names(m.inner)
  {
    if m.doneName in Names(m.inner) { NameInside(named, m.inner, m.doneName); }
  }

  // ----- the cache

  /** The array `[dirruns, doneName, result]`. */
  class Cell {
    const run: nat
    const doneName: nat
    var result: Option<bool>

    constructor (run: nat, doneName: nat)
      ensures this.run == run && this.doneName == doneName && result == None
    {
      this.run, this.doneName, result := run, doneName, None;
    }
  }

  class Sizzle {
    var doc: Document
    var dirruns: nat
    /** What combinators keep on the nodes: one slot for each direction. */
    var slots: map<(Elem, Direction), Cell>
    ghost const named: nat -> Matcher

    constructor (ghost named: nat -> Matcher, doc: Document)
      requires Finite(doc)
      ensures this.named == named && Sound({}) && this.doc == doc
    {
      this.named := named;
      this.doc := doc;
      dirruns := 0;
      slots := map[];
    }

    ghost function Cells(): set<Cell>
      reads this
    {
      set k | k in slots :: slots[k]
    }

    /** The combinator that left a cell. */
    ghost predicate True(key: (Elem, Direction), c: Cell)
      reads this, c
      requires Finite(doc)
    {
      var m := named(c.doneName);
      m.Combinator? && !m.first && m.dir == key.1 && Looks(doc, m, key.0) &&
      c.result == Some(Somewhere(doc, m, Some(key.0)))
    }

    /** Every result of this run, but for the combinators that are at work, says whether its node or one beyond it matches. */
    ghost predicate Sound(busy: set<nat>)
      reads this, Cells()
    {
      && Finite(doc)
      && (forall k :: k in slots ==> slots[k].run <= dirruns)
      && (forall k :: k in slots && slots[k].run == dirruns && slots[k].doneName !in busy ==> True(k, slots[k]))
    }

    /** What a call leaves behind: cells that were there, and new ones of its own combinators. */
    twostate predicate Grown(names: set<nat>)
      reads this
    {
      && (forall k :: k in old(slots) ==> k in slots)
      && (forall k :: k in slots ==> (k in old(slots) && slots[k] == old(slots)[k]) || (fresh(slots[k]) && slots[k].doneName in names))
    }

    /** Runs a matcher on a node. */
    method Run(m: Matcher, e: Elem, ghost busy: set<nat>) returns (r: bool)
      requires Sound(busy) && Registered(named, m) && Names(m) !! busy
      modifies `slots
      ensures Sound(busy) && r == Matches(doc, m, e) && Grown(Names(m))
      decreases m, 1
    {
      match m
      case Filter(id) =>
        r := doc.holds(id, e);
      case All(ms) =>
        r := RunAll(m, e, busy);
      case Combinator(_, first, _, _, _) =>
        if first {
          r := RunFirst(m, e, busy);
        } else {
          r := RunCached(m, e, busy);
        }
    }

    /** All the matchers, the last one first. */
    method RunAll(m: Matcher, e: Elem, ghost busy: set<nat>) returns (r: bool)
      requires m.All? && Sound(busy) && Registered(named, m) && Names(m) !! busy
      modifies `slots
      ensures Sound(busy) && r == Matches(doc, m, e) && Grown(Names(m))
      decreases m, 0
    {
      var i := |m.matchers|;
      while i > 0
        invariant 0 <= i <= |m.matchers| && Sound(busy) && Grown(Names(m))
        invariant forall k :: i <= k < |m.matchers| ==> Matches(doc, m.matchers[k], e)
      {
        i := i - 1;
        assert Names(m.matchers[i]) <= Names(m);
        r := Run(m.matchers[i], e, busy);
        if !r {
          return;
        }
      }
      r := true;
    }

    /** The nearest node the combinator looks at. */
    method RunFirst(c: Matcher, e: Elem, ghost busy: set<nat>) returns (r: bool)
      requires c.Combinator? && c.first && Sound(busy) && Registered(named, c) && Names(c) !! busy
      modifies `slots
      ensures Sound(busy) && r == Matches(doc, c, e) && Grown(Names(c))
      decreases c, 0
    {
      var x := doc.next(e, c.dir);
      while x.Some?
        invariant Sound(busy) && Grown({})
        invariant Matches(doc, c, e) == Nearest(doc, c, x)
        decreases if x.Some? then 1 + doc.rank(x.value, c.dir) else 0
      {
        if Looks(doc, c, x.value) {
          r := Run(c.inner, x.value, busy);
          return;
        }
        x := doc.next(x.value, c.dir);
      }
      r := false;
    }

    /** The walk of the branch for XML nodes, which cannot carry a cache. */
    method RunUncached(c: Matcher, e: Elem, ghost busy: set<nat>) returns (r: bool)
      requires c.Combinator? && !c.first && Sound(busy) && Registered(named, c) && Names(c) !! busy
      modifies `slots
      ensures Sound(busy) && r == Matches(doc, c, e) && Grown(Names(c))
    {
      var x := doc.next(e, c.dir);
      while x.Some?
        invariant Sound(busy) && Grown(Names(c))
        invariant Matches(doc, c, e) == Somewhere(doc, c, x)
        decreases if x.Some? then 1 + doc.rank(x.value, c.dir) else 0
      {
        if Looks(doc, c, x.value) {
          r := Run(c.inner, x.value, busy);
          if r {
            return;
          }
        }
        x := doc.next(x.value, c.dir);
      }
      r := false;
    }

    /** The nodes on which the walk has left its own cell: the cell's final result will be right for all of them. */
    ghost predicate Trail(c: Matcher, cell: Cell, x: Option<Elem>)
      requires c.Combinator? && Finite(doc)
      reads this, cell
    {
      forall k :: k in slots && slots[k] == cell ==>
        && k.1 == c.dir && Looks(doc, c, k.0) && cell.result == Some(false)
        && Somewhere(doc, c, Some(k.0)) == Somewhere(doc, c, x)
        && (x.Some? ==> doc.rank(x.value, c.dir) < doc.rank(k.0, c.dir))
    }

    /** The results that earlier calls of the combinator have left. */
    ghost predicate Earlier(c: Matcher, cell: Cell)
      requires c.Combinator? && Finite(doc)
      reads this, Cells()
    {
      forall k :: k in slots && slots[k] != cell && slots[k].run == dirruns && slots[k].doneName == c.doneName ==> True(k, slots[k])
    }

    /** The nodes that carry the cell while the inner matcher runs on the last of them. */
    ghost predicate OnTrail(c: Matcher, cell: Cell, x: Elem)
      requires c.Combinator? && Finite(doc)
      reads this
    {
      forall k :: k in slots && slots[k] == cell ==>
        && k.1 == c.dir && Looks(doc, c, k.0) && Somewhere(doc, c, Some(k.0)) == Somewhere(doc, c, Some(x))
        && doc.rank(x, c.dir) <= doc.rank(k.0, c.dir)
    }

    method Leave(c: Matcher, x: Elem, cell: Cell, ghost inside: set<nat>)
      requires c.Combinator? && c.doneName in inside && cell.run == dirruns && cell.doneName == c.doneName
      requires Sound(inside) && Earlier(c, cell) && Trail(c, cell, Some(x)) && Looks(doc, c, x)
      modifies `slots
      ensures Sound(inside) && Earlier(c, cell) && OnTrail(c, cell, x) && slots == old(slots)[(x, c.dir) := cell]
    {
      hide Matches, Somewhere, Looks;
      slots := slots[(x, c.dir) := cell];
    }

    /** The result of the inner matcher goes into the cell, and so to all nodes that carry it. */
    method Fill(c: Matcher, x: Elem, cell: Cell, ghost inside: set<nat>, r: bool)
      requires c.Combinator? && !c.first && named(c.doneName) == c && c.doneName in inside && cell.run == dirruns && cell.doneName == c.doneName
      requires Sound(inside) && Earlier(c, cell) && OnTrail(c, cell, x) && Looks(doc, c, x) && r == Matches(doc, c.inner, x)
      modifies cell
      ensures Sound(inside) && Earlier(c, cell)
      ensures !r ==> Trail(c, cell, doc.next(x, c.dir))
      ensures r ==> forall k :: k in slots && slots[k] == cell ==> True(k, cell)
    {
      hide Matches, Somewhere, Looks;
      OneFurther(doc, c, x);
      cell.result := Some(r);
    }

    /** Leaves the cell on a node, runs the inner matcher there, and puts its result into the cell. */
    method Visit(c: Matcher, x: Elem, cell: Cell, ghost inside: set<nat>) returns (r: bool)
      requires c.Combinator? && !c.first && Registered(named, c) && Names(c.inner) !! inside && c.doneName in inside
      requires Sound(inside) && Earlier(c, cell) && Trail(c, cell, Some(x)) && Looks(doc, c, x)
      requires cell.run == dirruns && cell.doneName == c.doneName
      modifies `slots, cell
      ensures Sound(inside) && Earlier(c, cell) && r == Matches(doc, c.inner, x)
      ensures !r ==> Trail(c, cell, doc.next(x, c.dir))
      ensures r ==> forall k :: k in slots && slots[k] == cell ==> True(k, cell)
      ensures forall k :: k in old(slots) ==> k in slots
      ensures forall k :: k in slots ==> (k in old(slots) && slots[k] == old(slots)[k]) || slots[k] == cell || (fresh(slots[k]) && slots[k].doneName in Names(c))
      decreases c, 0, 0
    {
      hide Matches, Somewhere, Looks;
      Leave(c, x, cell, inside);
      r := Run(c.inner, x, inside);
      Fill(c, x, cell, inside, r);
    }

    /** The walk has come to a node with a result of this run: it holds for all nodes on the way. */
    method TakeOver(c: Matcher, x: Elem, cell: Cell, ghost busy: set<nat>) returns (r: bool)
      requires c.Combinator? && !c.first && Registered(named, c) && c.doneName !in busy && named(c.doneName) == c
      requires Sound(busy + {c.doneName}) && Earlier(c, cell) && Trail(c, cell, Some(x)) && Looks(doc, c, x)
      requires cell.run == dirruns && cell.doneName == c.doneName
      requires (x, c.dir) in slots && slots[(x, c.dir)].run == dirruns && slots[(x, c.dir)].doneName == c.doneName
      modifies cell
      ensures Sound(busy) && r == Somewhere(doc, c, Some(x))
    {
      var found := slots[(x, c.dir)];
      assert found != cell;
      cell.result := found.result;
      r := cell.result == Some(true);
    }

    /** Any node further on, with the outcome shared by all nodes visited. */
    method RunCached(c: Matcher, e: Elem, ghost busy: set<nat>) returns (r: bool)
      requires c.Combinator? && !c.first && Sound(busy) && Registered(named, c) && Names(c) !! busy
      modifies `slots
      ensures Sound(busy) && r == Matches(doc, c, e) && Grown(Names(c))
      decreases c, 0
    {
      NameOutside(named, c);
      ghost var inside := busy + {c.doneName};
      var newCache := new Cell(dirruns, c.doneName);
      var x := doc.next(e, c.dir);
      while x.Some?
        invariant Sound(inside) && Earlier(c, newCache) && Trail(c, newCache, x) && Grown(Names(c))
        invariant Matches(doc, c, e) == Somewhere(doc, c, x)
        invariant fresh(newCache)
        decreases if x.Some? then 1 + doc.rank(x.value, c.dir) else 0
      {
        if Looks(doc, c, x.value) {
          var key := (x.value, c.dir);
          if key in slots && slots[key].run == dirruns && slots[key].doneName == c.doneName {
            r := TakeOver(c, x.value, newCache, busy);
            return;
          }
          r := Visit(c, x.value, newCache, inside);
          if r {
            return;
          }
        }
        x := doc.next(x.value, c.dir);
      }
      r := false;
    }

    // ----- a matching run

    /** A new run: whatever the cache holds from earlier ones, for whatever document, does not count. */
    method StartRun(doc: Document)
      requires Finite(doc) && Sound({})
      modifies `doc, `dirruns
      ensures Sound({}) && this.doc == doc && dirruns == old(dirruns) + 1
    {
      this.doc := doc;
      dirruns := dirruns + 1;
    }

    /** The elements that match, asked for in any order within one run. */
    method Select(m: Matcher, elems: seq<Elem>) returns (matched: seq<Elem>)
      requires Sound({}) && Registered(named, m)
      modifies `slots
      ensures Sound({}) && matched == Matching(doc, m, elems)
    {
      matched := [];
      for i := 0 to |elems|
        invariant Sound({}) && matched == Matching(doc, m, elems[..i])
      {
        assert elems[..i + 1][..i] == elems[..i];
        var r := Run(m, elems[i], {});
        if r {
          matched := matched + [elems[i]];
        }
      }
      assert elems[..|elems|] == elems;
    }
  }

  /** The elements that match, without any cache. */
  ghost function Matching(doc: Document, m: Matcher, elems: seq<Elem>): seq<Elem>
    requires Finite(doc)
  {
    if elems == [] then [] else
      Matching(doc, m, elems[..|elems| - 1]) + if Matches(doc, m, elems[|elems| - 1]) then [elems[|elems| - 1]] else []
  }
}
