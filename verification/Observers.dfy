/** The doubly linked chain of observation infos of one row, and the walk over all of it from any member. */
module Observers {

  class Info {
    const observed: nat
    var next: Info?
    var prev: Info?

    constructor (observed: nat)
      ensures this.observed == observed && next == null && prev == null
    {
      this.observed := observed;
      next, prev := null, null;
    }
  }

  /** The infos in order from the head, each linked to its neighbours. */
  ghost predicate IsChain(chain: seq<Info>)
    reads chain
  {
    && (forall i {:trigger chain[i].prev} | 0 <= i < |chain| ::
          chain[i].prev == if i == 0 then null else chain[i - 1])
    && (forall i {:trigger chain[i].next} | 0 <= i < |chain| ::
          chain[i].next == if i + 1 == |chain| then null else chain[i + 1])
    && (forall i, j | 0 <= i < j < |chain| :: chain[i] != chain[j])
  }

  function Objects(chain: seq<Info>): (r: seq<nat>)
    ensures |r| == |chain|
    ensures forall i | 0 <= i < |chain| :: r[i] == chain[i].observed
  {
    seq(|chain|, i requires 0 <= i < |chain| => chain[i].observed)
  }

  function Reversed<T>(s: seq<T>): (r: seq<T>)
    ensures |r| == |s|
  {
    seq(|s|, i requires 0 <= i < |s| => s[|s| - 1 - i])
  }

  /** The order in which the objects of a chain are called from position k: back to the head, then from k
      itself to the tail.
   */
  function VisitOrder(chain: seq<Info>, k: nat): seq<nat>
    requires k < |chain|
  {
    Reversed(Objects(chain[..k])) + Objects(chain[k..])
  }

  /** Call every object of the chain that info belongs to; the calls are recorded. */
  method ForEach(info: Info, ghost chain: seq<Info>, ghost k: nat) returns (called: seq<nat>)
    requires IsChain(chain) && k < |chain| && chain[k] == info
    ensures called == VisitOrder(chain, k)
  {
    called := [];
    var current := info.prev;
    ghost var i := k;
    while current != null
      invariant 0 <= i <= k
      invariant current == if i == 0 then null else chain[i - 1]
      invariant called == Reversed(Objects(chain[i..k]))
      decreases i
    {
      called := called + [current.observed];
      current := current.prev;
      i := i - 1;
      assert Objects(chain[i..k]) == [chain[i].observed] + Objects(chain[i + 1..k]);
    }
    assert chain[0..k] == chain[..k];
    ghost var before := called;
    current := info;
    i := k;
    while current != null
      invariant k <= i <= |chain|
      invariant current == if i == |chain| then null else chain[i]
      invariant called == before + Objects(chain[k..i])
      decreases |chain| - i
    {
      called := called + [current.observed];
      current := current.next;
      assert Objects(chain[k..i + 1]) == Objects(chain[k..i]) + [chain[i].observed];
      i := i + 1;
    }
    assert chain[k..|chain|] == chain[k..];
  }

  lemma {:induction false} ReversedMultiset<T>(s: seq<T>)
    ensures multiset(Reversed(s)) == multiset(s)
    decreases |s|
  {
    if s != [] {
      var n := |s| - 1;
      ReversedMultiset(s[..n]);
      assert s == s[..n] + [s[n]];
      assert Reversed(s) == [s[n]] + Reversed(s[..n]);
    }
  }

  /** From whatever member it starts, the walk calls every object of the chain once. */
  lemma EveryObjectOnce(chain: seq<Info>, k: nat)
    requires k < |chain|
    ensures multiset(VisitOrder(chain, k)) == multiset(Objects(chain))
  {
    ReversedMultiset(Objects(chain[..k]));
    assert Objects(chain) == Objects(chain[..k]) + Objects(chain[k..]);
  }

  // ---- Joining and leaving a chain --------------------------------------------------------------

  /** Link a new info behind the head, as is done when a row that has observers gets another one. */
  method Join(head: Info, info: Info, ghost chain: seq<Info>)
    requires IsChain(chain) && |chain| > 0 && chain[0] == head && info !in chain
    modifies chain, info
    ensures IsChain([head, info] + chain[1..])
  {
    assert |chain| > 1 ==> chain[0].next == chain[1] && chain[1] in chain;
    assert |chain| == 1 ==> chain[0].next == null;
    assert head in chain;
    info.prev := head;
    info.next := head.next;
    if info.next != null {
      info.next.prev := info;
    }
    head.next := info;
    ghost var joined := [head, info] + chain[1..];
    forall i | 0 <= i < |joined|
      ensures joined[i].prev == (if i == 0 then null else joined[i - 1])
      ensures joined[i].next == (if i + 1 == |joined| then null else joined[i + 1])
    {
      assert i >= 2 ==> joined[i] == chain[i - 1];
      assert 1 <= i && i + 1 < |joined| ==> joined[i + 1] == chain[i];
    }
  }

  /** Unlink an info that is destroyed; if it was the head, the info after it becomes the head. */
  method Leave(info: Info, ghost chain: seq<Info>, ghost k: nat)
    requires IsChain(chain) && k < |chain| && chain[k] == info
    modifies chain
    ensures IsChain(chain[..k] + chain[k + 1..])
  {
    assert k > 0 ==> chain[k].prev == chain[k - 1] && chain[k - 1] in chain;
    assert k == 0 ==> chain[k].prev == null;
    assert k + 1 < |chain| ==> chain[k].next == chain[k + 1] && chain[k + 1] in chain;
    assert k + 1 == |chain| ==> chain[k].next == null;
    if info.prev != null {
      info.prev.next := info.next;
      if info.next != null {
        info.next.prev := info.prev;
      }
    } else if info.next != null {
      info.next.prev := null;
    }
    ghost var left := chain[..k] + chain[k + 1..];
    forall i | 0 <= i < |left|
      ensures left[i].prev == (if i == 0 then null else left[i - 1])
      ensures left[i].next == (if i + 1 == |left| then null else left[i + 1])
    {
      assert left[i] == chain[if i < k then i else i + 1];
      assert i > 0 ==> left[i - 1] == chain[if i - 1 < k then i - 1 else i];
      assert i + 1 < |left| ==> left[i + 1] == chain[if i + 1 < k then i + 1 else i + 2];
    }
  }
}
