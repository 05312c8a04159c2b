/** While a list fires, the cursor splits it into what has been called and what is going to be. */
module CallbacksCursor {
  import opened Wrappers
  import opened CallbacksList

  function Tags<F>(list: seq<Entry<F>>): (ts: seq<nat>)
    ensures |ts| == |list|
  {
    seq(|list|, k requires 0 <= k < |list| => list[k].tag)
  }

  /** Those of the tags that are still on the list. */
  function Surviving(tags: seq<nat>, on: seq<nat>): seq<nat> {
    if tags == [] then []
    else Surviving(tags[..|tags| - 1], on) + if tags[|tags| - 1] in on then [tags[|tags| - 1]] else []
  }

  predicate Distinct(tags: seq<nat>) { forall i, j :: 0 <= i < j < |tags| ==> tags[i] != tags[j] }

  /** Registrations are told apart by their tags, and tags are not used twice. */
  ghost predicate Numbered<F, A>(c: Callbacks<F, A>) {
    c.list.Some? ==> Distinct(Tags(c.list.value)) && forall t :: t in Tags(c.list.value) ==> t < c.next
  }

  /** The split: `list[base..firingIndex + 1]` are the survivors of what was called in this firing, in order; the rest has not been called. */
  ghost predicate Split<F, A>(c: Callbacks<F, A>) {
    c.firing && c.list.Some? ==>
      var list := c.list.value;
      && -1 <= c.firingIndex < |list| && 0 <= c.base <= c.firingIndex + 1
      && c.firingLength == |list|
      && c.data.Some?
      && Distinct(c.pass)
      && (forall t :: t in c.pass ==> t < c.next)
      && Surviving(c.pass, Tags(list)) == Tags(list)[c.base..c.firingIndex + 1]
      && (forall k :: 0 <= k < |list| && (k < c.base || c.firingIndex < k) ==> Tags(list)[k] !in c.pass)
  }

  ghost predicate Inv<F, A>(c: Callbacks<F, A>) {
    && Numbered(c) && Split(c) && !c.broken
    && (c.firing ==> c.fired)
    && (c.list.Some? && !c.firing ==> c.firingStart <= |c.list.value|)
    && (!c.firing ==> c.firingStart == 0)
    && (c.firing ==> c.firingStart == 0)
    && (c.list.None? ==> c.stack.None? && c.memory.None?)
  }

  // ----- lists of tags

  lemma {:induction false} SurvivingSame(tags: seq<nat>, a: seq<nat>, b: seq<nat>)
    requires forall t :: t in tags ==> (t in a <==> t in b)
    ensures Surviving(tags, a) == Surviving(tags, b)
  {
    if tags != [] { SurvivingSame(tags[..|tags| - 1], a, b); }
  }

  lemma {:induction false} SurvivingIn(tags: seq<nat>, on: seq<nat>, t: nat)
    ensures t in Surviving(tags, on) <==> t in tags && t in on
  {
    if tags != [] {
      SurvivingIn(tags[..|tags| - 1], on, t);
      assert tags == tags[..|tags| - 1] + [tags[|tags| - 1]];
    }
  }

  /** Taking one tag off the list takes it off the survivors. */
  lemma {:induction false} SurvivingWithout(tags: seq<nat>, on: seq<nat>, less: seq<nat>, gone: nat)
    requires Distinct(tags) && (forall t :: t in less <==> t in on && t != gone)
    ensures gone !in tags ==> Surviving(tags, less) == Surviving(tags, on)
    ensures gone in tags && gone in on ==>
              exists k :: 0 <= k < |Surviving(tags, on)| && Surviving(tags, on)[k] == gone
                          && Surviving(tags, less) == Surviving(tags, on)[..k] + Surviving(tags, on)[k + 1..]
  {
    hide Surviving;
    if gone !in tags {
      SurvivingSame(tags, on, less);
    } else if gone in on {
      var n := |tags| - 1;
      var front := tags[..n];
      SurvivingLast(tags, on);
      SurvivingLast(tags, less);
      if tags[n] == gone {
        assert gone !in front;
        SurvivingSame(front, on, less);
        var s := Surviving(tags, on);
        assert s[|s| - 1] == gone && s[..|s| - 1] + s[|s| - 1 + 1..] == Surviving(front, on);
      } else {
        assert gone in front by { assert tags == front + [tags[n]]; }
        SurvivingWithout(front, on, less, gone);
        var s, r := Surviving(front, on), Surviving(tags, on);
        var k :| 0 <= k < |s| && s[k] == gone && Surviving(front, less) == s[..k] + s[k + 1..];
        TakeFromFront(s, r[|s|..], k);
        assert r == s + r[|s|..];
        assert r[k] == gone && Surviving(tags, less) == r[..k] + r[k + 1..];
      }
    }
  }

  lemma SurvivingLast(tags: seq<nat>, on: seq<nat>)
    requires tags != []
    ensures Surviving(tags, on) == Surviving(tags[..|tags| - 1], on) + if tags[|tags| - 1] in on then [tags[|tags| - 1]] else []
  {
  }

  lemma TakeFromFront(s: seq<nat>, e: seq<nat>, k: nat)
    requires k < |s|
    ensures (s + e)[..k] + (s + e)[k + 1..] == (s[..k] + s[k + 1..]) + e
  {
  }
}
