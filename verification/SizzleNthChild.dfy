/** The `:nth-child` family: counting with positions remembered from earlier elements, and the final test. */
module SizzleNthChild {
  import opened Wrappers

  datatype Node = Node(isElement: bool, name: string)

  /** A position kept on the parent: the run, a child's index, and its number among the elements. */
  datatype Position = Position(run: nat, index: nat, diff: int)

  /** What is counted: elements, or nodes of one name. */
  predicate Counts(node: Node, ofType: Option<string>) { if ofType.Some? then node.name == ofType.value else node.isElement }

  /** How many of the first `n` children count. */
  function Before(children: seq<Node>, ofType: Option<string>, n: nat): nat
    requires n <= |children|
  {
    if n == 0 then 0 else Before(children, ofType, n - 1) + if Counts(children[n - 1], ofType) then 1 else 0
  }

  /** How many of the children from `n` on count. */
  function From(children: seq<Node>, ofType: Option<string>, n: nat): nat
    requires n <= |children|
    decreases |children| - n
  {
    if n == |children| then 0 else (if Counts(children[n], ofType) then 1 else 0) + From(children, ofType, n + 1)
  }

  /** The number of child `p` among its siblings, from the front or from the back, starting with 1. */
  function Ordinal(children: seq<Node>, ofType: Option<string>, p: nat, forward: bool): nat
    requires p < |children|
  {
    if forward then Before(children, ofType, p + 1) else From(children, ofType, p)
  }

  /** The two counts of a child that counts make up the total and that child once more. */
  lemma {:induction false} BothEnds(children: seq<Node>, ofType: Option<string>, n: nat)
    requires n <= |children|
    ensures Before(children, ofType, n) + From(children, ofType, n) == Before(children, ofType, |children|)
    decreases |children| - n
  {
    if n < |children| { BothEnds(children, ofType, n + 1); }
  }

  /** The children from `m` up to `n` that are elements, or that have the name. */
  ghost function Numbered(children: seq<Node>, ofType: Option<string>, m: nat, n: nat): set<nat>
    requires m <= n <= |children|
  {
    set k: nat | m <= k < n && (if ofType.Some? then children[k].name == ofType.value else children[k].isElement)
  }

  lemma {:induction false} BeforeCounts(children: seq<Node>, ofType: Option<string>, n: nat)
    requires n <= |children|
    ensures Before(children, ofType, n) == |Numbered(children, ofType, 0, n)|
  {
    if n > 0 {
      BeforeCounts(children, ofType, n - 1);
      var less := Numbered(children, ofType, 0, n - 1);
      assert Numbered(children, ofType, 0, n) == if Counts(children[n - 1], ofType) then less + {n - 1} else less;
    }
  }

  lemma {:induction false} FromCounts(children: seq<Node>, ofType: Option<string>, n: nat)
    requires n <= |children|
    ensures From(children, ofType, n) == |Numbered(children, ofType, n, |children|)|
    decreases |children| - n
  {
    if n < |children| {
      FromCounts(children, ofType, n + 1);
      var less := Numbered(children, ofType, n + 1, |children|);
      assert Numbered(children, ofType, n, |children|) == if Counts(children[n], ofType) then less + {n} else less;
    }
  }

  /** The number of a child: how many elements, or nodes of the name, there are up to it, or from it on. */
  lemma OrdinalIs(children: seq<Node>, ofType: Option<string>, p: nat, forward: bool)
    requires p < |children|
    ensures Ordinal(children, ofType, p, forward) ==
            if forward then |Numbered(children, ofType, 0, p + 1)| else |Numbered(children, ofType, p, |children|)|
  {
    BeforeCounts(children, ofType, p + 1);
    FromCounts(children, ofType, p);
  }

  // ----- the final test

  /** The remainder of JavaScript has the sign of the dividend. */
  function Remainder(a: int, b: int): int
    requires b != 0
  {
    var m := if b > 0 then b else -b;
    if a >= 0 then a % m else -((-a) % m)
  }

  /** The expression at the end; a remainder by 0 is not 0. */
  predicate Test(diff: int, first: int) {
    diff == first || (first != 0 && Remainder(diff, first) == 0 && diff as real / first as real >= 0.0)
  }

  lemma Quotient(d: int, m: int) returns (q: int)
    requires m > 0 && d >= 0 && d % m == 0
    ensures q >= 0 && d == m * q
  {
    q := d / m;
    assert d == m * (d / m) + d % m;
  }

  lemma Divides(m: int, n: int)
    requires m > 0 && n >= 0
    ensures m * n >= 0 && (m * n) % m == 0
  {
    if n > 0 {
      Divides(m, n - 1);
      assert m * n == m * (n - 1) + m;
      Shift(m * (n - 1), m);
    }
  }

  lemma Shift(a: int, m: int)
    requires m > 0 && a >= 0
    ensures (a + m) % m == a % m
  {
    var q, r := a / m, a % m;
    assert a + m == m * (q + 1) + r;
    Unique(a + m, m, q + 1, r);
  }

  lemma Between(m: int, k: int)
    requires m > 0 && -m < m * k < m
    ensures k == 0
  {
  }

  lemma Unique(a: int, m: int, q: int, r: int)
    requires m > 0 && a == m * q + r && 0 <= r < m
    ensures a % m == r
  {
    var p, s := a / m, a % m;
    assert a == m * p + s;
    assert m * (q - p) == s - r;
    Between(m, q - p);
  }

  lemma SameSign(d: int, a: int)
    requires a != 0
    ensures d as real / a as real >= 0.0 <==> d == 0 || (d > 0 <==> a > 0)
  {
  }

  /** The test holds exactly if the number is `first * n + last` for some n from 0 on. */
  lemma TestIsFormula(ordinal: int, first: int, last: int)
    ensures Test(ordinal - last, first) <==> exists n: nat :: ordinal == first * n + last
  {
    hide Test;
    if Test(ordinal - last, first) {
      var n := SomeMultiple(ordinal - last, first);
      assert ordinal == first * n + last;
    }
    if n: nat :| ordinal == first * n + last { MultipleTests(ordinal - last, first, n); }
  }

  lemma SomeMultiple(d: int, first: int) returns (n: nat)
    requires Test(d, first)
    ensures d == first * n
  {
    if d == first {
      n := 1;
    } else {
      SameSign(d, first);
      if first > 0 {
        n := Quotient(d, first);
      } else {
        n := Quotient(-d, -first);
        assert -d == -first * n;
      }
    }
  }

  lemma MultipleTests(d: int, first: int, n: nat)
    requires d == first * n
    ensures Test(d, first)
  {
    if first > 0 {
      Divides(first, n);
      SameSign(d, first);
    } else if first < 0 {
      Divides(-first, n);
      assert -d == -first * n;
      SameSign(d, first);
    }
  }

  // ----- counting with remembered positions

  class Parent {
    const children: seq<Node>
    var dirruns: nat
    /** What `:nth-child` keeps on the parent. */
    var outerCache: Option<Position>
    /** What `:nth-last-child` keeps on the children: the run and the number. */
    var kept: map<nat, (nat, int)>

    constructor (children: seq<Node>)
      ensures this.children == children && Sound()
    {
      this.children := children;
      dirruns := 0;
      outerCache := None;
      kept := map[];
    }

    /** What was kept in this run is right. */
    ghost predicate Sound()
      reads this
    {
      && (outerCache.Some? ==> outerCache.value.run <= dirruns)
      && (outerCache.Some? && outerCache.value.run == dirruns ==>
            var p := outerCache.value;
            p.index < |children| && children[p.index].isElement && p.diff == Before(children, None, p.index + 1))
      && (forall k :: k in kept ==> kept[k].0 <= dirruns)
      && (forall k :: k in kept && kept[k].0 == dirruns ==> k < |children| && children[k].isElement && kept[k].1 == From(children, None, k))
    }

    /** A new run: positions kept in earlier ones do not count. */
    method StartRun()
      requires Sound()
      modifies `dirruns
      ensures Sound() && dirruns == old(dirruns) + 1
    {
      dirruns := dirruns + 1;
    }

    /** `:nth-child` for documents that can carry a cache: seeks on from the position kept last, around the end if need be. */
    method SeekFromCache(elem: nat) returns (diff: int)
      requires Sound() && elem < |children| && children[elem].isElement
      modifies `outerCache
      ensures Sound() && diff == Ordinal(children, None, elem, true)
      ensures outerCache == Some(Position(dirruns, elem, diff))
    {
      var valid := outerCache.Some? && outerCache.value.run == dirruns;
      var nodeIndex: int := if valid then outerCache.value.index else 0;
      diff := if valid then outerCache.value.diff else 0;
      var node: Option<nat> := if nodeIndex != 0 then Some(nodeIndex) else None;
      // The first child, once.
      var start := true;
      var found := false;
      while !found
        invariant node.Some? ==> node.value == nodeIndex && node.value < |children| && diff == Before(children, None, node.value + 1)
        invariant !start ==> node.Some? && (if found then node.value == elem else node.value < elem)
        invariant found ==> node == Some(elem)
        decreases !found, start, if node.Some? then |children| - node.value else 0
      {
        nodeIndex := nodeIndex + 1;
        if node.Some? && node.value + 1 < |children| {
          node := Some(node.value + 1);
        } else {
          assert start;
          diff, nodeIndex := 0, 0;
          start := false;
          node := Some(0);
        }
        if children[node.value].isElement {
          diff := diff + 1;
          found := node.value == elem;
        }
      }
      outerCache := Some(Position(dirruns, nodeIndex, diff));
    }

    /** All other forms: counts from one end, keeping the number of every element passed if documents can carry a cache. */
    method SeekFromEnd(elem: nat, forward: bool, ofType: Option<string>, useCache: bool) returns (diff: int)
      requires Sound() && elem < |children| && Counts(children[elem], ofType)
      requires useCache ==> !forward && ofType.None?
      modifies `kept
      ensures Sound() && diff == Ordinal(children, ofType, elem, forward)
    {
      diff := 0;
      var node: nat := if forward then 0 else |children| - 1;
      var found := false;
      while !found
        invariant Sound() && node < |children|
        invariant if forward then node <= elem else elem <= node
        invariant if found then node == elem && diff == Ordinal(children, ofType, elem, forward)
                  else diff == if forward then Before(children, ofType, node) else From(children, ofType, node + 1)
        decreases !found, if forward then |children| - node else node
      {
        if Counts(children[node], ofType) {
          diff := diff + 1;
          if useCache {
            kept := kept[node := (dirruns, diff)];
          }
          found := node == elem;
        }
        if !found {
          node := if forward then node + 1 else node - 1;
        }
      }
    }

    /** The whole filter, for the `nth` forms: whether the element's number is `first * n + last` for some n from 0 on. */
    method Nth(elem: nat, forward: bool, ofType: bool, xml: bool, first: int, last: int) returns (r: bool)
      requires Sound() && elem < |children| && children[elem].isElement
      modifies `outerCache, `kept
      ensures Sound()
      ensures r <==> exists n: nat :: Ordinal(children, if ofType then Some(children[elem].name) else None, elem, forward) == first * n + last
    {
      var name := if ofType then Some(children[elem].name) else None;
      var useCache := !xml && !ofType;
      if first == 1 && last == 0 {
        // The shortcut for n: every child matches.
        ghost var ordinal := Ordinal(children, name, elem, forward);
        assert ordinal == 1 * ordinal + 0;
        return true;
      }
      var diff: int;
      if forward && useCache {
        diff := SeekFromCache(elem);
      } else if useCache && elem in kept && kept[elem].0 == dirruns {
        diff := kept[elem].1;
      } else {
        diff := SeekFromEnd(elem, forward, name, useCache);
      }
      TestIsFormula(diff, first, last);
      r := Test(diff - last, first);
    }
  }
}
