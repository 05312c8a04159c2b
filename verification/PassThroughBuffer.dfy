/** The list of buffered chunks on the readable side: taking bytes off its front. */
module PassThroughBuffer {
  import opened Sequences
  import opened Wrappers

  type Bytes = seq<bv8>

  const MAX_HWM: int := 0x800000

  /** The least power of two from `p` on that reaches `n`. */
  function PowerFrom(p: nat, n: nat): (q: nat)
    requires p > 0
    ensures n <= q
    decreases n - p
  {
    if n <= p then p else PowerFrom(2 * p, n)
  }

  function RoundUp(n: nat): (m: nat)
    requires n > 0
    ensures n <= MAX_HWM ==> n <= m
  {
    if n >= MAX_HWM then MAX_HWM else PowerFrom(1, n)
  }

  /** No buffer is empty. */
  predicate Filled(list: seq<Bytes>) { forall k :: 0 <= k < |list| ==> list[k] != [] }

  /** The first `n` bytes of a list of buffers, and what is left of it; nothing if the list is empty. */
  method FromList(n: nat, list: seq<Bytes>, length: nat) returns (ret: Option<Bytes>, left: seq<Bytes>)
    requires length == |Concat(list)|
    ensures list == [] ==> ret == None && left == []
    ensures list != [] && length == 0 ==> ret == None && left == list
    ensures list != [] && length > 0 && (n == 0 || n >= length) ==> ret == Some(Concat(list)) && left == []
    ensures list != [] && 0 < n < length ==> ret == Some(Concat(list)[..n]) && Concat(left) == Concat(list)[n..]
    ensures Filled(list) ==> Filled(left)
  {
    left := list;
    if list == [] {
      ret := None;
    } else if length == 0 {
      ret := None;
    } else if n == 0 || n >= length {
      ret := Some(Concat(list));
      left := [];
    } else {
      ConcatHead(list);
      if n < |list[0]| {
        ret := Some(list[0][..n]);
        left := [list[0][n..]] + list[1..];
        ConcatHead(left);
        assert left[1..] == list[1..];
        assert (list[0] + Concat(list[1..]))[..n] == list[0][..n];
        assert (list[0] + Concat(list[1..]))[n..] == list[0][n..] + Concat(list[1..]);
      } else if n == |list[0]| {
        ret := Some(list[0]);
        left := list[1..];
        assert (list[0] + Concat(left))[..n] == list[0] && (list[0] + Concat(left))[n..] == Concat(left);
      } else {
        var taken: Bytes, rest := TakeAcross(n, list);
        ret := Some(taken);
        left := rest;
      }
    }
  }

  /** The case that spans buffers: copies piece by piece. */
  method TakeAcross(n: nat, list: seq<Bytes>) returns (ret: Bytes, left: seq<Bytes>)
    requires 0 < n <= |Concat(list)|
    ensures ret == Concat(list)[..n] && Concat(left) == Concat(list)[n..]
    ensures Filled(list) ==> Filled(left)
  {
    ret, left := [], list;
    var i := 0;
    while i < |list| && |ret| < n
      invariant 0 <= i <= |list| && |ret| <= n
      invariant ret + Concat(left) == Concat(list)
      invariant |ret| < n ==> left == list[i..]
      invariant Filled(list) ==> Filled(left)
    {
      ConcatHead(left);
      var buf := left[0];
      var cpy := if n - |ret| < |buf| then n - |ret| else |buf|;
      ghost var before, after := ret, Concat(left[1..]);
      assert (before + buf[..cpy]) + (buf[cpy..] + after) == before + (buf + after) by { assert buf == buf[..cpy] + buf[cpy..]; }
      ret := ret + buf[..cpy];
      if cpy < |buf| {
        left := [buf[cpy..]] + left[1..];
        ConcatHead(left);
        assert left[1..] == list[i..][1..];
      } else {
        left := left[1..];
        assert buf[cpy..] == [];
        assert [] + after == after;
      }
      i := i + 1;
    }
    assert Concat(list)[..n] == ret && Concat(list)[n..] == Concat(left);
  }
}
