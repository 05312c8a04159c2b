/** Which pairs of a hash a helper gets, and in which order: what assigning them to an array, last pair first, makes of them. */
module HandlebarsPairs {
  import opened Wrappers
  import opened Numerals
  import opened Sequences
  import opened HandlebarsHash
  import opened HandlebarsAst
  import opened HandlebarsRuntime
  import opened HandlebarsInterp

  /** What pair `j` leaves of the key of a pair behind it: not its own key, and no index beyond a length. */
  predicate Leaves(ps: seq<Pair>, j: nat, key: string)
    requires j < |ps|
  {
    ps[j].key != key && (ps[j].key == "length" ==> Within(key, LengthOf(ps[j].value).GetOr(0)))
  }

  /** Of the pairs from `from` on, pair `i` reaches the helper. */
  predicate Lands(ps: seq<Pair>, from: nat, i: nat)
    requires i < |ps|
  {
    from <= i && ps[i].key != "length" && ps[i].key != "__proto__" && forall j :: from <= j < i ==> Leaves(ps, j, ps[i].key)
  }

  ghost predicate IsKept(ps: seq<Pair>, from: nat, x: Keyed<nat>) { x.value < |ps| && x.key == ps[x.value].key && Lands(ps, from, x.value) }

  /** Exactly the pairs that land are kept, each under its key, and index keys come first and in order. */
  lemma {:induction false} KeptExactly(ps: seq<Pair>, from: nat)
    ensures Ordered(KeptFrom(ps, from))
    ensures forall x :: x in KeptFrom(ps, from) <==> IsKept(ps, from, x)
    decreases |ps| - from
  {
    hide Ordered, IsKept, Put;
    if from >= |ps| {
      NoneKept(ps, from);
    } else {
      KeptExactly(ps, from + 1);
      KeptOne(ps, from, KeptFrom(ps, from + 1));
    }
  }

  /** Of two pairs that are kept the later one has another key, and is no index unless the earlier one is a smaller one. */
  lemma KeptIndexes(ps: seq<Pair>, a: nat, b: nat)
    requires a < b < |KeptFrom(ps, 0)|
    ensures var k, l := KeptFrom(ps, 0)[a].key, KeptFrom(ps, 0)[b].key;
            k != l && (Index(l).Some? ==> Index(k).Some? && Index(k).value < Index(l).value)
  {
    hide Put, KeptFrom, Whole;
    KeptExactly(ps, 0);
    var k, l := KeptFrom(ps, 0)[a].key, KeptFrom(ps, 0)[b].key;
    OrderedAt(KeptFrom(ps, 0), a, b);
    if Index(l).Some? { SameIndex(k, l); }
  }

  /** The keys that are array indexes: the decimal numerals of the numbers below 2^32 - 1. */
  lemma IndexIs(key: string, n: nat)
    ensures Index(key) == Some(n) <==> n < 0xFFFF_FFFF && key == Decimal(n)
  {
    hide Digits, Decimal;
    WholeDecimal(n);
    if Index(key) == Some(n) { WholeOnce(key, Decimal(n)); }
  }

  /** Different keys are different indexes. */
  lemma SameIndex(k: string, l: string)
    ensures Index(k).Some? && Index(l).Some? && Index(k) == Index(l) ==> k == l
  {
    hide Digits;
    if Index(k).Some? && Index(l).Some? && Index(k) == Index(l) { WholeOnce(k, l); }
  }

  lemma NoneKept(ps: seq<Pair>, from: nat)
    requires from >= |ps|
    ensures Ordered<nat>([]) && forall x :: !IsKept(ps, from, x)
  {
  }

  lemma KeptOne(ps: seq<Pair>, from: nat, rest: seq<Keyed<nat>>)
    requires from < |ps| && Ordered(rest) && forall x :: x in rest <==> IsKept(ps, from + 1, x)
    ensures var ks := Put(rest, ps[from].key, from, LengthOf(ps[from].value).GetOr(0));
            Ordered(ks) && forall x :: x in ks <==> IsKept(ps, from, x)
  {
    hide Ordered, Within, Cut, SetKey, IsKept;
    var p := ps[from];
    var n := LengthOf(p.value).GetOr(0);
    forall x ensures IsKept(ps, from, x) <==> (IsNew(ps, from, x) || (IsKept(ps, from + 1, x) && Leaves(ps, from, x.key))) {
      KeptStep(ps, from, x);
    }
    if p.key == "length" {
      CutIs(rest, n);
    } else if p.key != "__proto__" {
      SetKeyIs(rest, p.key, from);
    }
    forall x | x in rest ensures x.key != "length" && x.key != "__proto__" { KeptPlain(ps, from + 1, x); }
  }

  lemma KeptPlain(ps: seq<Pair>, from: nat, x: Keyed<nat>)
    requires IsKept(ps, from, x)
    ensures x.key != "length" && x.key != "__proto__"
  {
  }

  ghost predicate IsNew(ps: seq<Pair>, from: nat, x: Keyed<nat>)
    requires from < |ps|
  {
    x == Keyed(ps[from].key, from) && ps[from].key != "length" && ps[from].key != "__proto__"
  }

  lemma KeptStep(ps: seq<Pair>, from: nat, x: Keyed<nat>)
    requires from < |ps|
    ensures IsKept(ps, from, x) <==> (IsNew(ps, from, x) || (IsKept(ps, from + 1, x) && Leaves(ps, from, x.key)))
  {
    hide Leaves;
  }

  /** Every pair reaches the helper if and only if the keys are distinct and none of them is `length` or `__proto__`. */
  lemma AllLand(ps: seq<Pair>)
    ensures (forall i :: 0 <= i < |ps| ==> Lands(ps, 0, i)) <==>
            (forall i :: 0 <= i < |ps| ==> ps[i].key != "length" && ps[i].key != "__proto__") &&
            (forall i, j :: 0 <= i < j < |ps| ==> ps[i].key != ps[j].key)
  {
    hide Within;
    if forall i :: 0 <= i < |ps| ==> Lands(ps, 0, i) {
      forall i | 0 <= i < |ps| ensures ps[i].key != "length" && ps[i].key != "__proto__" { assert Lands(ps, 0, i); }
      forall i, j | 0 <= i < j < |ps| ensures ps[i].key != ps[j].key { assert Lands(ps, 0, j) && Leaves(ps, i, ps[j].key); }
    }
  }

  // ----- the order of keys that are no indexes

  /** The place of the last pair with a key. */
  function LastUse(ps: seq<Pair>, key: string): int {
    if ps == [] then -1 else if Last(ps).key == key then |ps| - 1 else LastUse(Front(ps), key)
  }

  lemma {:induction false} LastUseIs(ps: seq<Pair>, key: string)
    ensures -1 <= LastUse(ps, key) < |ps| && (LastUse(ps, key) >= 0 ==> ps[LastUse(ps, key)].key == key)
    ensures forall i :: LastUse(ps, key) < i < |ps| ==> ps[i].key != key
    decreases |ps|
  {
    if ps != [] { LastUseIs(Front(ps), key); }
  }

  function NamedKeys<T>(ks: seq<Keyed<T>>): seq<string> {
    if ks == [] then [] else (if Index(ks[0].key).None? then [ks[0].key] else []) + NamedKeys(ks[1..])
  }

  lemma NamedCons<T>(x: Keyed<T>, ks: seq<Keyed<T>>)
    ensures NamedKeys([x] + ks) == (if Index(x.key).None? then [x.key] else []) + NamedKeys(ks)
  {
    hide Index;
    assert ([x] + ks)[1..] == ks;
  }

  lemma {:induction false} NamedSet<T>(ks: seq<Keyed<T>>, key: string, v: T)
    ensures NamedKeys(SetKey(ks, key, v)) == NamedKeys(ks) + (if Index(key).Some? || HasKey(ks, key) then [] else [key])
    decreases |ks|
  {
    hide Index, HasKey, NamedKeys;
    if ks == [] {
      HasNone(ks, key);
      NamedCons(Keyed(key, v), ks);
      assert [Keyed(key, v)] + ks == [Keyed(key, v)];
      NoNames<T>();
    } else {
      HasRest(ks, key);
      assert ks == [ks[0]] + ks[1..];
      NamedCons(ks[0], ks[1..]);
      if ks[0].key == key {
        NamedCons(Keyed(key, v), ks[1..]);
      } else if Before(key, ks[0].key) {
        NamedCons(Keyed(key, v), ks);
      } else {
        NamedSet(ks[1..], key, v);
        NamedCons(ks[0], SetKey(ks[1..], key, v));
      }
    }
  }

  lemma {:induction false} NamedCut<T>(ks: seq<Keyed<T>>, n: nat)
    ensures NamedKeys(Cut(ks, n)) == NamedKeys(ks)
    decreases |ks|
  {
    hide Index;
    if ks != [] {
      NamedCut(ks[1..], n);
      if Within(ks[0].key, n) { assert Cut(ks, n)[1..] == Cut(ks[1..], n); } else { assert Cut(ks, n) == Cut(ks[1..], n); }
    }
  }

  /** Keys that are no indexes come in the order of their last pairs, the last one first. */
  lemma {:induction false} KeptOrder(ps: seq<Pair>, from: nat)
    ensures var ns := NamedKeys(KeptFrom(ps, from));
            (forall a :: 0 <= a < |ns| ==> LastUse(ps, ns[a]) >= from) &&
            forall a, b :: 0 <= a < b < |ns| ==> LastUse(ps, ns[a]) > LastUse(ps, ns[b])
    decreases |ps| - from
  {
    hide Put, LastUse, NamedKeys;
    if from >= |ps| {
      NoNames<nat>();
    } else {
      KeptOrder(ps, from + 1);
      var p, rest := ps[from], KeptFrom(ps, from + 1);
      NamedPut(rest, p.key, from, LengthOf(p.value).GetOr(0));
      if Index(p.key).None? && !HasKey(rest, p.key) && p.key != "length" && p.key != "__proto__" { NewName(ps, from); }
    }
  }

  lemma NoNames<T>()
    ensures NamedKeys<T>([]) == []
  {
  }

  lemma NamedPut<T>(ks: seq<Keyed<T>>, key: string, v: T, n: nat)
    ensures NamedKeys(Put(ks, key, v, n)) ==
            NamedKeys(ks) + if Index(key).Some? || HasKey(ks, key) || key == "length" || key == "__proto__" then [] else [key]
  {
    hide Index, HasKey, NamedKeys, SetKey, Cut;
    NamedSet(ks, key, v);
    NamedCut(ks, n);
  }

  /** A key that is not there yet has its last pair here. */
  lemma NewName(ps: seq<Pair>, from: nat)
    requires from < |ps| && Index(ps[from].key).None? && ps[from].key != "length" && ps[from].key != "__proto__"
    requires !HasKey(KeptFrom(ps, from + 1), ps[from].key)
    ensures LastUse(ps, ps[from].key) == from
  {
    var key := ps[from].key;
    LastUseIs(ps, key);
    if LastUse(ps, key) > from { StaysThere(ps, from + 1, LastUse(ps, key)); }
  }

  lemma {:induction false} StaysThere(ps: seq<Pair>, from: nat, i: nat)
    requires from <= i < |ps| && Index(ps[i].key).None? && ps[i].key != "length" && ps[i].key != "__proto__"
    ensures HasKey(KeptFrom(ps, from), ps[i].key)
    decreases |ps| - from
  {
    hide Put, Index, HasKey;
    PutHas(KeptFrom(ps, from + 1), ps[from].key, from, LengthOf(ps[from].value).GetOr(0), ps[i].key);
    if i > from { StaysThere(ps, from + 1, i); }
  }

  // ----- examples

  /** `{{a length=5}}`: the helper gets an empty object. */
  lemma LengthLost(rt: Runtime, o: Options, env: Env, w: World)
    ensures InterpHash(rt, o, env, Hash([Pair("length", NumberE("5"))]), w) == Ok(w, HashV([]))
  {
    var ps := [Pair("length", NumberE("5"))];
    assert KeptFrom(ps, 1) == [];
    assert KeptFrom(ps, 0) == [];
  }

  /** `{{a 0=x 1=y}}`: the first value is evaluated first, unlike in `{{a b=x c=y}}`. */
  lemma IndexesFirst(x: Expr, y: Expr)
    ensures KeptFrom([Pair("0", x), Pair("1", y)], 0) == [Keyed("0", 0), Keyed("1", 1)]
    ensures KeptFrom([Pair("b", x), Pair("c", y)], 0) == [Keyed("c", 1), Keyed("b", 0)]
  {
    hide Digits;
    DigitIs('0');
    DigitIs('1');
    var ps, qs := [Pair("0", x), Pair("1", y)], [Pair("b", x), Pair("c", y)];
    assert KeptFrom(ps, 2) == [] && KeptFrom(ps, 1) == [Keyed("1", 1)];
    LetterIs("b");
    LetterIs("c");
    assert KeptFrom(qs, 2) == [] && KeptFrom(qs, 1) == [Keyed("c", 1)];
    assert Index("b").None? && !Before("b", "c");
    assert SetKey([Keyed("c", 1)], "b", 0) == [Keyed("c", 1)] + SetKey([], "b", 0) by { assert [Keyed("c", 1)][1..] == []; }
  }

  lemma DigitIs(c: char)
    requires IsDigit(c)
    ensures Digits([c]) == Some(c as int - '0' as int)
  {
    assert [c][..0] == "";
  }

  lemma LetterIs(s: string)
    requires s != "" && !IsDigit(Last(s))
    ensures Digits(s) == None
  {
  }
}
