/** Every step of a callback list keeps the cursor's split, and what that says about a firing. */
module CallbacksRuns {
  import opened Wrappers
  import opened CallbacksList
  import opened CallbacksCursor

  // ----- firing

  /** At the head of the loop the entry under the cursor has not been called yet. */
  ghost predicate Ready<F, A>(c: Callbacks<F, A>) {
    && Numbered(c) && !c.broken && c.firing && c.fired && c.firingStart == 0
    && (c.list.None? ==> c.stack.None? && c.memory.None?)
    && (c.list.Some? ==>
          var list := c.list.value;
          && 0 <= c.base <= c.firingIndex <= |list| && c.firingLength == |list| && c.data.Some?
          && Distinct(c.pass) && (forall t :: t in c.pass ==> t < c.next)
          && Surviving(c.pass, Tags(list)) == Tags(list)[c.base..c.firingIndex]
          && (forall k :: 0 <= k < |list| && (k < c.base || c.firingIndex <= k) ==> Tags(list)[k] !in c.pass))
  }

  /** Calling the entry under the cursor. */
  lemma CallInv<F, A>(o: Options, c: Callbacks<F, A>)
    requires Ready(c) && c.list.Some? && c.firingIndex < c.firingLength
    ensures Inv(Loop(o, c))
  {
    var tags := Tags(c.list.value);
    var t := tags[c.firingIndex];
    var d := Loop(o, c);
    assert d.pass == c.pass + [t];
    assert d.pass[..|c.pass|] == c.pass;
    assert t in tags;
    assert tags[c.base..c.firingIndex] + [t] == tags[c.base..c.firingIndex + 1];
    forall k | 0 <= k < |tags| && (k < c.base || c.firingIndex < k) ensures tags[k] !in d.pass {
      assert tags[k] != t;
    }
  }

  lemma {:induction false} LoopInv<F, A>(o: Options, c: Callbacks<F, A>)
    requires Ready(c)
    ensures Inv(Loop(o, c))
    decreases if c.stack.Some? then |c.stack.value| else 0, 0
  {
    hide Distinct, Tags, Surviving, Fire;
    if c.list.Some? && c.firingIndex < c.firingLength {
      CallInv(o, c);
    } else {
      var d := c.(firing := false);
      if d.list.Some? && d.stack.Some? && d.stack.value != [] {
        FireInv(o, d.(stack := Some(d.stack.value[1..])), d.stack.value[0]);
      } else if d.list.Some? && d.stack.None? {
        NothingListed(d.(list := Some([])));
      }
    }
  }

  lemma NothingListed<F, A>(c: Callbacks<F, A>)
    requires c.list == Some([])
    ensures Numbered(c)
  {
  }

  lemma {:induction false} FireInv<F, A>(o: Options, c: Callbacks<F, A>, data: A)
    requires Numbered(c) && !c.broken && !c.firing && c.list.Some? && c.firingStart <= |c.list.value|
    ensures Inv(Fire(o, c, data))
    decreases if c.stack.Some? then |c.stack.value| else 0, 1
  {
    hide Loop, Distinct, Tags;
    var d := c.(memory := if o.memory then Some(data) else None, fired := true, firingIndex := c.firingStart, firingStart := 0,
                firingLength := |c.list.value|, firing := true, data := Some(data), pass := [], base := c.firingStart,
                fires := c.fires + [data]);
    StartReady(c, d);
    LoopInv(o, d);
  }

  lemma StartReady<F, A>(c: Callbacks<F, A>, d: Callbacks<F, A>)
    requires Numbered(c) && !c.broken && c.list.Some? && c.firingStart <= |c.list.value|
    requires d == c.(memory := d.memory, fired := true, firingIndex := c.firingStart, firingStart := 0,
                     firingLength := |c.list.value|, firing := true, data := d.data, pass := [], base := c.firingStart, fires := d.fires) && d.data.Some?
    ensures Ready(d)
  {
    assert Tags(d.list.value)[d.base..d.firingIndex] == [];
  }

  lemma ReturnInv<F, A>(o: Options, c: Callbacks<F, A>)
    requires Inv(c) && c.firing
    ensures Inv(Return(o, c))
  {
    hide Loop, Distinct, Tags, Surviving;
    LoopInv(o, c.(firingIndex := c.firingIndex + 1));
  }

  lemma FireWithInv<F, A>(o: Options, c: Callbacks<F, A>, data: A)
    requires Inv(c)
    ensures Inv(FireWith(o, c, data))
  {
    hide Fire, Distinct, Tags, Surviving;
    if c.list.Some? && (!c.fired || c.stack.Some?) && !c.firing { FireInv(o, c, data); }
  }

  // ----- adding

  /** New registrations go to the end and have new tags. */
  lemma {:induction false} PushNumbers<F>(o: Options, list: seq<Entry<F>>, next: nat, fns: seq<F>)
    requires Distinct(Tags(list)) && forall t :: t in Tags(list) ==> t < next
    ensures var (r, n) := Push(o, list, next, fns);
            && list <= r && next <= n && Distinct(Tags(r)) && (forall t :: t in Tags(r) ==> t < n)
            && (forall k :: |list| <= k < |r| ==> next <= Tags(r)[k])
    decreases |fns|
  {
    if fns != [] {
      if o.unique && Has(list, fns[0]) {
        PushNumbers(o, list, next, fns[1..]);
      } else {
        var more := list + [Entry(fns[0], next)];
        var tags := Tags(list);
        assert Tags(more) == tags + [next];
        assert Distinct(tags + [next]) by {
          forall i, j | 0 <= i < j < |tags + [next]| ensures (tags + [next])[i] != (tags + [next])[j] {
            if j == |tags| { assert tags[i] in tags; }
          }
        }
        PushNumbers(o, more, next + 1, fns[1..]);
        var (r, n) := Push(o, list, next, fns);
        assert Tags(more) <= Tags(r) by {
          forall k | 0 <= k < |more| ensures Tags(more)[k] == Tags(r)[k] { assert more[k] == r[k]; }
        }
      }
    }
  }

  lemma AddInv<F, A>(o: Options, c: Callbacks<F, A>, fns: seq<F>)
    requires Inv(c)
    ensures Inv(Add(o, c, fns))
  {
    hide Fire, Push, Distinct, Surviving;
    if c.list.Some? {
      PushNumbers(o, c.list.value, c.next, fns);
      var (list, next) := Push(o, c.list.value, c.next, fns);
      var d := c.(list := Some(list), next := next);
      if d.firing {
        AddSplit(c, d.(firingLength := |list|));
      } else if d.memory.Some? {
        FireInv(o, d.(firingStart := |c.list.value|), d.memory.value);
      }
    }
  }

  lemma AddSplit<F, A>(c: Callbacks<F, A>, d: Callbacks<F, A>)
    requires Inv(c) && c.firing && c.list.Some? && d.list.Some? && Numbered(d) && c.next <= d.next
    requires d == c.(list := d.list, next := d.next, firingLength := |d.list.value|) && c.list.value <= d.list.value
    requires forall k :: |c.list.value| <= k < |d.list.value| ==> c.next <= Tags(d.list.value)[k]
    ensures Inv(d)
  {
    hide Distinct, Surviving;
    var a, b := Tags(c.list.value), Tags(d.list.value);
    assert a == b[..|a|] by {
      forall k | 0 <= k < |a| ensures a[k] == b[k] { assert c.list.value[k] == d.list.value[k]; }
    }
    forall t | t in c.pass ensures t in a <==> t in b {
      if t in a { var k :| 0 <= k < |a| && a[k] == t; assert b[k] == t; }
    }
    SurvivingSame(c.pass, a, b);
    assert b[c.base..c.firingIndex + 1] == a[c.base..c.firingIndex + 1];
    forall k | 0 <= k < |b| && (k < c.base || c.firingIndex < k) ensures b[k] !in d.pass {
      if k < |a| { assert b[k] == a[k]; }
    }
  }

  // ----- removing

  lemma SpliceTags<F>(list: seq<Entry<F>>, k: nat)
    requires k < |list| && Distinct(Tags(list))
    ensures var less := Tags(list[..k] + list[k + 1..]);
            && less == Tags(list)[..k] + Tags(list)[k + 1..] && Distinct(less)
            && forall t :: t in less <==> t in Tags(list) && t != Tags(list)[k]
  {
    var tags := Tags(list);
    var less := Tags(list[..k] + list[k + 1..]);
    assert less == tags[..k] + tags[k + 1..];
    forall t ensures t in less <==> t in tags && t != tags[k] {
      if t in tags && t != tags[k] {
        var j :| 0 <= j < |tags| && tags[j] == t;
        assert less[if j < k then j else j - 1] == t;
      }
      if t in less {
        var j :| 0 <= j < |less| && less[j] == t;
        assert tags[if j < k then j else j + 1] == t;
      }
    }
  }

  lemma AtMostOnce(tags: seq<nat>, i: nat, j: nat)
    requires Distinct(tags) && i < |tags| && j < |tags| && tags[i] == tags[j]
    ensures i == j
  {
  }

  /** Taking out an entry that was called takes it out of the survivors. */
  lemma SpliceCalled<F, A>(c: Callbacks<F, A>, k: nat)
    requires Inv(c) && c.firing && c.list.Some? && c.base <= k <= c.firingIndex
    ensures Surviving(c.pass, Tags(Splice(c, k).list.value)) == Tags(Splice(c, k).list.value)[c.base..c.firingIndex]
  {
    hide Surviving, Tags, Distinct;
    SpliceTags(c.list.value, k);
    CalledSegment(c.pass, Tags(c.list.value), Tags(Splice(c, k).list.value), c.base, k, c.firingIndex + 1);
  }

  lemma CalledSegment(pass: seq<nat>, tags: seq<nat>, less: seq<nat>, lo: nat, k: nat, hi: nat)
    requires lo <= k < hi <= |tags| && Distinct(tags) && Distinct(pass) && Surviving(pass, tags) == tags[lo..hi]
    requires less == tags[..k] + tags[k + 1..] && forall t :: t in less <==> t in tags && t != tags[k]
    ensures Surviving(pass, less) == less[lo..hi - 1]
  {
    hide Surviving, Distinct;
    SurvivingWithout(pass, tags, less, tags[k]);
    var s := Surviving(pass, tags);
    assert s[k - lo] == tags[k];
    SurvivingIn(pass, tags, tags[k]);
    var j :| 0 <= j < |s| && s[j] == tags[k] && Surviving(pass, less) == s[..j] + s[j + 1..];
    SpliceSegment(tags, lo, k, hi, s, j);
  }

  lemma SpliceSegment(tags: seq<nat>, lo: nat, k: nat, hi: nat, s: seq<nat>, j: nat)
    requires lo <= k < hi <= |tags| && Distinct(tags) && s == tags[lo..hi] && j < |s| && s[j] == tags[k]
    ensures s[..j] + s[j + 1..] == (tags[..k] + tags[k + 1..])[lo..hi - 1]
  {
    assert s[j] == tags[lo + j];
    AtMostOnce(tags, lo + j, k);
    TakeOut(tags, lo, k, hi);
  }

  lemma TakeOut(tags: seq<nat>, lo: nat, k: nat, hi: nat)
    requires lo <= k < hi <= |tags|
    ensures tags[lo..hi][..k - lo] + tags[lo..hi][k - lo + 1..] == (tags[..k] + tags[k + 1..])[lo..hi - 1]
  {
    var a, b := tags[lo..hi][..k - lo] + tags[lo..hi][k - lo + 1..], (tags[..k] + tags[k + 1..])[lo..hi - 1];
    assert |a| == |b|;
    forall i | 0 <= i < |a| ensures a[i] == b[i] {
      if i < k - lo {
        assert a[i] == tags[lo + i] == b[i];
      } else {
        assert a[i] == tags[lo + i + 1] == b[i];
      }
    }
  }

  /** Taking out another one leaves the survivors alone. */
  lemma SpliceUncalled<F, A>(c: Callbacks<F, A>, k: nat)
    requires Inv(c) && c.firing && c.list.Some? && k < |c.list.value| && (k < c.base || c.firingIndex < k)
    ensures var d := Splice(c, k);
            -1 <= d.firingIndex < |d.list.value| && 0 <= d.base <= d.firingIndex + 1
            && Surviving(c.pass, Tags(d.list.value)) == Tags(d.list.value)[d.base..d.firingIndex + 1]
  {
    hide Surviving, Tags;
    var d := Splice(c, k);
    var tags, less := Tags(c.list.value), Tags(d.list.value);
    SpliceTags(c.list.value, k);
    SurvivingWithout(c.pass, tags, less, tags[k]);
    assert tags[k] !in c.pass;
    assert tags[c.base..c.firingIndex + 1] == less[d.base..d.firingIndex + 1];
  }

  /** Taking out an entry keeps the split: the cursor moves with the entries it has passed. */
  lemma SpliceSplit<F, A>(c: Callbacks<F, A>, k: nat)
    requires Inv(c) && c.firing && c.list.Some? && k < |c.list.value|
    ensures Split(Splice(c, k))
  {
    hide Surviving, Tags, Distinct;
    var d := Splice(c, k);
    var tags, less := Tags(c.list.value), Tags(d.list.value);
    SpliceTags(c.list.value, k);
    if c.base <= k <= c.firingIndex { SpliceCalled(c, k); } else { SpliceUncalled(c, k); }
    forall i | 0 <= i < |less| && (i < d.base || d.firingIndex < i) ensures less[i] !in d.pass {
      assert less[i] == tags[if i < k then i else i + 1];
    }
  }

  lemma SpliceInv<F, A>(c: Callbacks<F, A>, k: nat)
    requires Inv(c) && c.list.Some? && k < |c.list.value|
    ensures Inv(Splice(c, k))
  {
    hide Surviving;
    SpliceTags(c.list.value, k);
    if c.firing { SpliceSplit(c, k); }
  }

  lemma {:induction false} RemoveFromInv<F, A>(c: Callbacks<F, A>, fn: F, from: nat)
    requires Inv(c) && c.list.Some?
    ensures Inv(RemoveFrom(c, fn, from))
    decreases |c.list.value|
  {
    hide Inv;
    var k := InArray(fn, c.list.value, from);
    if k != -1 {
      SpliceInv(c, k);
      RemoveFromInv(Splice(c, k), fn, k);
    }
  }

  /** The list without a function. */
  function Without<F(==)>(list: seq<Entry<F>>, fn: F): seq<Entry<F>> {
    if list == [] then [] else (if list[0].fn == fn then [] else [list[0]]) + Without(list[1..], fn)
  }

  lemma {:induction false} WithoutAdds<F>(a: seq<Entry<F>>, b: seq<Entry<F>>, fn: F)
    ensures Without(a + b, fn) == Without(a, fn) + Without(b, fn)
  {
    if a == [] {
      assert a + b == b;
    } else {
      WithoutAdds(a[1..], b, fn);
      assert (a + b)[1..] == a[1..] + b;
    }
  }

  lemma {:induction false} WithoutNone<F>(list: seq<Entry<F>>, fn: F)
    requires !Has(list, fn)
    ensures Without(list, fn) == list
  {
    if list != [] {
      assert list[0].fn != fn;
      forall k | 0 <= k < |list[1..]| ensures list[1..][k].fn != fn { assert list[k + 1].fn != fn; }
      WithoutNone(list[1..], fn);
    }
  }

  lemma {:induction false} InArrayFirst<F>(fn: F, list: seq<Entry<F>>, from: nat)
    requires forall j :: 0 <= j < from && j < |list| ==> list[j].fn != fn
    ensures var k := InArray(fn, list, from);
            if k == -1 then !Has(list, fn) else forall j :: 0 <= j < k ==> list[j].fn != fn
    decreases |list| - from
  {
    if from < |list| && list[from].fn != fn { InArrayFirst(fn, list, from + 1); }
  }

  lemma WithoutOne<F>(e: Entry<F>)
    ensures Without([e], e.fn) == []
  {
    assert [e][1..] == [];
  }

  lemma WithoutSplice<F>(list: seq<Entry<F>>, k: nat, fn: F)
    requires k < |list| && list[k].fn == fn
    ensures Without(list[..k] + list[k + 1..], fn) == Without(list, fn)
  {
    hide Without;
    var e := [list[k]];
    assert list == list[..k] + (e + list[k + 1..]);
    WithoutAdds(list[..k], e + list[k + 1..], fn);
    WithoutAdds(e, list[k + 1..], fn);
    WithoutAdds(list[..k], list[k + 1..], fn);
    WithoutOne(list[k]);
    var a, b := Without(list[..k], fn), Without(list[k + 1..], fn);
    assert a + ([] + b) == a + b;
  }

  /** `remove` takes every occurrence of the function out and leaves the others in order. */
  lemma {:induction false} RemoveFromIs<F, A>(c: Callbacks<F, A>, fn: F, from: nat)
    requires c.list.Some? && forall j :: 0 <= j < from && j < |c.list.value| ==> c.list.value[j].fn != fn
    ensures RemoveFrom(c, fn, from).list == Some(Without(c.list.value, fn))
    decreases |c.list.value|
  {
    hide Without;
    var list := c.list.value;
    InArrayFirst(fn, list, from);
    var k := InArray(fn, list, from);
    if k == -1 {
      WithoutNone(list, fn);
    } else {
      var d := Splice(c, k);
      RemoveFromIs(d, fn, k);
      WithoutSplice(list, k, fn);
    }
  }

  lemma RemoveInv<F, A>(c: Callbacks<F, A>, fn: F)
    requires Inv(c)
    ensures Inv(Remove(c, fn))
  {
    hide Inv;
    if c.list.Some? { RemoveFromInv(c, fn, 0); }
  }

  lemma LockInv<F, A>(c: Callbacks<F, A>)
    requires Inv(c)
    ensures Inv(Lock(c)) && Inv(Disable(c))
  {
    hide Surviving, Tags, Distinct;
  }
}
