/**
 * The arrays in which `JavaScriptCompiler` collects the pairs of a hash. As objects they list the keys that are array indexes
 * first, by number, and the others in the order of their creation; `length` and `__proto__` are not keys like others.
 */
module HandlebarsHash {
  import opened Wrappers
  import opened Numerals

  datatype Keyed<+T> = Keyed(key: string, value: T)

  /** The array index a key is, if it is one. */
  function Index(key: string): Option<nat> {
    match Whole(key)
    case Some(n) => if n <= 0xFFFF_FFFE then Some(n) else None
    case None => None
  }

  /** The array length a number is, if it is one. */
  function LengthText(number: string): Option<nat> {
    match Whole(number)
    case Some(n) => if n <= 0xFFFF_FFFF then Some(n) else None
    case None => None
  }

  /** The key `a` is listed before `b` whatever the order of their creation. */
  predicate Before(a: string, b: string) {
    Index(a).Some? && (Index(b).None? || Index(a).value < Index(b).value)
  }

  /** A key that is there keeps its place; another one gets its own. */
  function SetKey<T>(ps: seq<Keyed<T>>, key: string, v: T): seq<Keyed<T>> {
    if ps == [] then [Keyed(key, v)]
    else if ps[0].key == key then [Keyed(key, v)] + ps[1..]
    else if Before(key, ps[0].key) then [Keyed(key, v)] + ps
    else [ps[0]] + SetKey(ps[1..], key, v)
  }

  predicate Within(key: string, n: nat) { Index(key).Some? ==> Index(key).value < n }

  /** Setting the length of an array deletes what lies beyond. */
  function Cut<T>(ps: seq<Keyed<T>>, n: nat): seq<Keyed<T>> {
    if ps == [] then [] else (if Within(ps[0].key, n) then [ps[0]] else []) + Cut(ps[1..], n)
  }

  /** One assignment; `n` is what the value is as a length. */
  function Put<T>(ps: seq<Keyed<T>>, key: string, v: T, n: nat): seq<Keyed<T>> {
    if key == "length" then Cut(ps, n) else if key == "__proto__" then ps else SetKey(ps, key, v)
  }

  predicate HasKey<T>(ps: seq<Keyed<T>>, key: string) { exists k :: 0 <= k < |ps| && ps[k].key == key }

  // ----- what an assignment keeps

  /** Each key is there once, and index keys come first and in order. */
  ghost predicate Ordered<T>(ps: seq<Keyed<T>>) {
    ps == [] || (Ordered(ps[1..]) && forall x :: x in ps[1..] ==> Follows(x.key, ps[0].key))
  }

  predicate Follows(b: string, a: string) { a != b && !Before(b, a) }

  lemma {:induction false} OrderedAt<T>(ps: seq<Keyed<T>>, a: nat, b: nat)
    requires Ordered(ps) && a < b < |ps|
    ensures Follows(ps[b].key, ps[a].key)
    decreases a
  {
    if a == 0 { assert ps[b] == ps[1..][b - 1]; } else { OrderedAt(ps[1..], a - 1, b - 1); }
  }

  lemma Member<T>(x: Keyed<T>, a: Keyed<T>, s: seq<Keyed<T>>)
    ensures x in [a] + s <==> x == a || x in s
  {
  }

  lemma OrderedCons<T>(a: Keyed<T>, s: seq<Keyed<T>>)
    requires Ordered(s) && forall x :: x in s ==> Follows(x.key, a.key)
    ensures Ordered([a] + s)
  {
    assert ([a] + s)[1..] == s;
  }

  lemma FollowsAll(key: string, first: string, other: string)
    requires Before(key, first) && Follows(other, first)
    ensures Follows(other, key)
  {
    hide Index;
  }

  lemma OrderedTail<T>(ps: seq<Keyed<T>>)
    requires Ordered(ps) && ps != []
    ensures Ordered(ps[1..]) && forall x :: x in ps[1..] ==> Follows(x.key, ps[0].key)
    ensures forall x :: x in ps <==> x == ps[0] || x in ps[1..]
  {
    assert ps == [ps[0]] + ps[1..];
  }

  lemma {:induction false} SetKeyIs<T>(ps: seq<Keyed<T>>, key: string, v: T)
    requires Ordered(ps)
    ensures Ordered(SetKey(ps, key, v))
    ensures forall x :: x in SetKey(ps, key, v) <==> x == Keyed(key, v) || (x in ps && x.key != key)
    decreases |ps|
  {
    hide Before, Follows, Ordered;
    var added := Keyed(key, v);
    if ps == [] {
      OrderedCons(added, []);
      assert [added] + [] == SetKey(ps, key, v);
    } else if ps[0].key == key {
      Replaces(ps, added);
    } else if Before(key, ps[0].key) {
      ComesFirst(ps, added);
    } else {
      OrderedTail(ps);
      SetKeyIs(ps[1..], key, v);
      CanFollow(key, ps[0].key);
      ComesLater(ps, added, SetKey(ps[1..], key, v));
    }
  }

  lemma Replaces<T>(ps: seq<Keyed<T>>, added: Keyed<T>)
    requires Ordered(ps) && ps != [] && ps[0].key == added.key
    ensures Ordered([added] + ps[1..])
    ensures forall x :: x in [added] + ps[1..] <==> x == added || (x in ps && x.key != added.key)
  {
    hide Before, Ordered;
    OrderedTail(ps);
    OrderedCons(added, ps[1..]);
    forall x ensures x in [added] + ps[1..] <==> x == added || x in ps[1..] { Member(x, added, ps[1..]); }
  }

  lemma ComesFirst<T>(ps: seq<Keyed<T>>, added: Keyed<T>)
    requires Ordered(ps) && ps != [] && Before(added.key, ps[0].key)
    ensures Ordered([added] + ps)
    ensures forall x :: x in [added] + ps <==> x == added || (x in ps && x.key != added.key)
  {
    hide Before, Follows, Ordered;
    OrderedTail(ps);
    forall x | x in ps ensures Follows(x.key, added.key) && x.key != added.key {
      if x == ps[0] { Comes(added.key, x.key); } else { FollowsAll(added.key, ps[0].key, x.key); }
      NotSame(x.key, added.key);
    }
    OrderedCons(added, ps);
    forall x ensures x in [added] + ps <==> x == added || x in ps { Member(x, added, ps); }
  }

  lemma ComesLater<T>(ps: seq<Keyed<T>>, added: Keyed<T>, rest: seq<Keyed<T>>)
    requires Ordered(ps) && ps != [] && ps[0].key != added.key && Follows(added.key, ps[0].key) && Ordered(rest)
    requires forall x :: x in rest <==> x == added || (x in ps[1..] && x.key != added.key)
    ensures Ordered([ps[0]] + rest)
    ensures forall x :: x in [ps[0]] + rest <==> x == added || (x in ps && x.key != added.key)
  {
    hide Before, Follows, Ordered;
    OrderedTail(ps);
    OrderedCons(ps[0], rest);
    forall x ensures x in [ps[0]] + rest <==> x == ps[0] || x in rest { Member(x, ps[0], rest); }
  }

  lemma NotSame(b: string, a: string)
    requires Follows(b, a)
    ensures a != b
  {
  }

  lemma Comes(a: string, b: string)
    requires Before(a, b)
    ensures Follows(b, a)
  {
    hide Index;
  }

  lemma CanFollow(b: string, a: string)
    requires a != b && !Before(b, a)
    ensures Follows(b, a)
  {
  }

  lemma {:induction false} CutIs<T>(ps: seq<Keyed<T>>, n: nat)
    requires Ordered(ps)
    ensures Ordered(Cut(ps, n))
    ensures forall x :: x in Cut(ps, n) <==> x in ps && Within(x.key, n)
    decreases |ps|
  {
    hide Follows, Within, Ordered;
    if ps == [] {
      assert Cut(ps, n) == ps;
    } else {
      OrderedTail(ps);
      CutIs(ps[1..], n);
      CutFirst(ps, Cut(ps[1..], n), n);
    }
  }

  lemma CutFirst<T>(ps: seq<Keyed<T>>, rest: seq<Keyed<T>>, n: nat)
    requires Ordered(ps) && ps != [] && Ordered(rest)
    requires forall x :: x in rest <==> x in ps[1..] && Within(x.key, n)
    ensures var q := (if Within(ps[0].key, n) then [ps[0]] else []) + rest;
            Ordered(q) && forall x :: x in q <==> x in ps && Within(x.key, n)
  {
    hide Follows, Within, Ordered;
    OrderedTail(ps);
    if Within(ps[0].key, n) {
      OrderedCons(ps[0], rest);
      forall x ensures x in [ps[0]] + rest <==> x == ps[0] || x in rest { Member(x, ps[0], rest); }
    } else {
      assert [] + rest == rest;
    }
  }

  lemma {:induction false} CutKeeps<T>(ps: seq<Keyed<T>>, n: nat, key: string)
    requires HasKey(ps, key) && Index(key).None?
    ensures HasKey(Cut(ps, n), key)
    decreases |ps|
  {
    hide Index;
    var k :| 0 <= k < |ps| && ps[k].key == key;
    var q := Cut(ps, n);
    if k == 0 {
      assert q[0].key == key;
    } else {
      assert ps[1..][k - 1].key == key;
      CutKeeps(ps[1..], n, key);
      var j :| 0 <= j < |Cut(ps[1..], n)| && Cut(ps[1..], n)[j].key == key;
      assert q[j + |q| - |Cut(ps[1..], n)|].key == key;
    }
  }

  lemma {:induction false} SetKeyHas<T>(ps: seq<Keyed<T>>, key: string, v: T, other: string)
    ensures HasKey(SetKey(ps, key, v), other) <==> other == key || HasKey(ps, other)
    decreases |ps|
  {
    hide Before, HasKey;
    var q := SetKey(ps, key, v);
    HasRest(q, other);
    if ps == [] {
      assert q[1..] == ps;
      HasNone(ps, other);
    } else {
      HasRest(ps, other);
      if ps[0].key == key {
        assert q[1..] == ps[1..];
      } else if Before(key, ps[0].key) {
        assert q[1..] == ps;
      } else {
        SetKeyHas(ps[1..], key, v, other);
        assert q[1..] == SetKey(ps[1..], key, v);
      }
    }
  }

  lemma HasNone<T>(ps: seq<Keyed<T>>, key: string)
    requires ps == []
    ensures !HasKey(ps, key)
  {
  }

  lemma HasRest<T>(ps: seq<Keyed<T>>, key: string)
    requires ps != []
    ensures HasKey(ps, key) <==> ps[0].key == key || HasKey(ps[1..], key)
  {
    if HasKey(ps[1..], key) { var k :| 0 <= k < |ps[1..]| && ps[1..][k].key == key; assert ps[k + 1].key == key; }
    if HasKey(ps, key) { var k :| 0 <= k < |ps| && ps[k].key == key; if k > 0 { assert ps[1..][k - 1].key == key; } }
  }

  /** A key that is no index stays once it is there, and comes in only by an assignment to it. */
  lemma PutHas<T>(ps: seq<Keyed<T>>, key: string, v: T, n: nat, other: string)
    requires Index(other).None?
    ensures HasKey(Put(ps, key, v, n), other) <==> HasKey(ps, other) || (key == other && key != "length" && key != "__proto__")
  {
    hide Cut, SetKey, Index, HasKey;
    if key == "length" {
      if HasKey(ps, other) { CutKeeps(ps, n, other); }
      if HasKey(Cut(ps, n), other) { CutHad(ps, n, other); }
    } else if key != "__proto__" {
      SetKeyHas(ps, key, v, other);
    }
  }

  lemma {:induction false} CutHad<T>(ps: seq<Keyed<T>>, n: nat, key: string)
    requires HasKey(Cut(ps, n), key)
    ensures HasKey(ps, key)
    decreases |ps|
  {
    hide Within, HasKey;
    if ps == [] {
      HasNone(Cut(ps, n), key);
      return;
    }
    var q, rest := Cut(ps, n), Cut(ps[1..], n);
    HasRest(ps, key);
    if Within(ps[0].key, n) {
      HasRest(q, key);
      assert q[1..] == rest;
    } else {
      assert q == rest;
    }
    if HasKey(rest, key) { CutHad(ps[1..], n, key); }
  }

  // ----- other values under the same keys

  function Mapped<T, U>(ps: seq<Keyed<T>>, f: T -> U): (qs: seq<Keyed<U>>)
    ensures |qs| == |ps| && forall k :: 0 <= k < |ps| ==> qs[k] == Keyed(ps[k].key, f(ps[k].value))
  {
    if ps == [] then [] else [Keyed(ps[0].key, f(ps[0].value))] + Mapped(ps[1..], f)
  }

  lemma {:induction false} MappedSet<T, U>(ps: seq<Keyed<T>>, key: string, v: T, f: T -> U)
    ensures Mapped(SetKey(ps, key, v), f) == SetKey(Mapped(ps, f), key, f(v))
    decreases |ps|
  {
    hide Before;
    if ps != [] { MappedSet(ps[1..], key, v, f); }
  }

  lemma {:induction false} MappedCut<T, U>(ps: seq<Keyed<T>>, n: nat, f: T -> U)
    ensures Mapped(Cut(ps, n), f) == Cut(Mapped(ps, f), n)
    decreases |ps|
  {
    hide Within;
    if ps != [] { MappedCut(ps[1..], n, f); }
  }

  lemma MappedPut<T, U>(ps: seq<Keyed<T>>, key: string, v: T, n: nat, f: T -> U)
    ensures Mapped(Put(ps, key, v, n), f) == Put(Mapped(ps, f), key, f(v), n)
  {
    MappedSet(ps, key, v, f);
    MappedCut(ps, n, f);
  }

  /** Nothing comes into a list but what is assigned. */
  lemma PutValues<T>(ps: seq<Keyed<T>>, key: string, v: T, n: nat)
    ensures forall x :: x in Put(ps, key, v, n) ==> x in ps || x == Keyed(key, v)
  {
    hide SetKey, Cut;
    SetKeyValues(ps, key, v);
    CutValues(ps, n);
  }

  lemma {:induction false} SetKeyValues<T>(ps: seq<Keyed<T>>, key: string, v: T)
    ensures forall x :: x in SetKey(ps, key, v) ==> x in ps || x == Keyed(key, v)
    decreases |ps|
  {
    hide Before;
    if ps != [] {
      SetKeyValues(ps[1..], key, v);
      assert forall x :: x in ps[1..] ==> x in ps;
    }
  }

  lemma {:induction false} CutValues<T>(ps: seq<Keyed<T>>, n: nat)
    ensures forall x :: x in Cut(ps, n) ==> x in ps
    decreases |ps|
  {
    hide Within;
    if ps != [] {
      CutValues(ps[1..], n);
      assert forall x :: x in ps[1..] ==> x in ps;
    }
  }
}
