/**
 * The pending service list and Python's `list.remove`: the first occurrence
 * of the value is deleted, and a value that is not in the list raises
 * ValueError (here: None).
 */
module PendingList {
  import opened Maybe

  /** The index of the first occurrence of `x` in `p`, or |p| when there is none. */
  function IndexOf(p: seq<string>, x: string): (k: nat)
    ensures k <= |p|
    ensures forall i :: 0 <= i < k ==> p[i] != x
    ensures k < |p| ==> p[k] == x
    decreases |p|
  {
    if p == [] then 0
    else if p[0] == x then 0
    else
      var k := IndexOf(p[1..], x);
      assert forall i :: 0 < i <= k ==> p[i] == p[1..][i - 1];
      1 + k
  }

  /** `p.remove(x)`. */
  function Remove(p: seq<string>, x: string): (r: Option<seq<string>>)
    ensures r.Some? <==> x in p
    ensures r.Some? ==> |r.value| == |p| - 1 && multiset(r.value) == multiset(p) - multiset{x}
    ensures r.Some? ==> forall i :: 0 <= i < |r.value| ==>
      r.value[i] == if i < IndexOf(p, x) then p[i] else p[i + 1]
  {
    var k := IndexOf(p, x);
    if k == |p| then None
    else
      assert p == p[..k] + [x] + p[k + 1..];
      Some(p[..k] + p[k + 1..])
  }

  /** Removes each of `xs` in turn, failing at the first one that is not left. */
  function RemoveAll(p: seq<string>, xs: seq<string>): Option<seq<string>>
    decreases |xs|
  {
    if xs == [] then Some(p)
    else
      match Remove(p, xs[0])
      case None => None
      case Some(q) => RemoveAll(q, xs[1..])
  }

  /**
   * Removing a sequence of names one by one succeeds exactly when they form a
   * sub-multiset of the list, and what is left is the multiset difference.
   */
  lemma {:induction false} RemoveAllSucceedsIff(p: seq<string>, xs: seq<string>)
    ensures RemoveAll(p, xs).Some? <==> multiset(xs) <= multiset(p)
    ensures RemoveAll(p, xs).Some? ==>
      multiset(RemoveAll(p, xs).value) == multiset(p) - multiset(xs)
      && |RemoveAll(p, xs).value| == |p| - |xs|
    decreases |xs|
  {
    if xs != [] {
      var x := xs[0];
      assert xs == [x] + xs[1..];
      assert multiset(xs) == multiset{x} + multiset(xs[1..]);
      match Remove(p, x)
      case None =>
        assert x !in multiset(p);
      case Some(q) =>
        RemoveAllSucceedsIff(q, xs[1..]);
        assert multiset(q) == multiset(p) - multiset{x};
        assert x in multiset(p);
    }
  }

  /** Only shrinking: whatever is left of a successful removal was already pending. */
  lemma RemoveAllShrinks(p: seq<string>, xs: seq<string>)
    requires RemoveAll(p, xs).Some?
    ensures multiset(RemoveAll(p, xs).value) <= multiset(p)
    ensures |RemoveAll(p, xs).value| <= |p|
  {
    RemoveAllSucceedsIff(p, xs);
  }
}
