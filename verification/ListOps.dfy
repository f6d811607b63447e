/** The in-place list algorithms: loops of single inserts and removals at indexes that shift as they run. */
module ListOps {

  function Without<T>(s: seq<T>, i: nat): seq<T>
    requires i < |s|
  {
    s[..i] + s[i + 1..]
  }

  // ---- What is left and what is taken when positions are singled out ----------------------------

  /** The elements of s at positions lo up to hi that are not in p, in order. */
  function Kept<T>(s: seq<T>, p: set<nat>, lo: nat, hi: nat): seq<T>
    requires lo <= hi <= |s|
    decreases hi - lo
  {
    if lo == hi then [] else Kept(s, p, lo, hi - 1) + if hi - 1 in p then [] else [s[hi - 1]]
  }

  /** The elements of s at positions lo up to hi that are in p, in order. */
  function Chosen<T>(s: seq<T>, p: set<nat>, lo: nat, hi: nat): seq<T>
    requires lo <= hi <= |s|
    decreases hi - lo
  {
    if lo == hi then [] else Chosen(s, p, lo, hi - 1) + if hi - 1 in p then [s[hi - 1]] else []
  }

  /** Every element is either kept or chosen, once. */
  lemma {:induction false} KeptAndChosen<T>(s: seq<T>, p: set<nat>, lo: nat, hi: nat)
    requires lo <= hi <= |s|
    ensures multiset(Kept(s, p, lo, hi)) + multiset(Chosen(s, p, lo, hi)) == multiset(s[lo..hi])
    decreases hi - lo
  {
    hide Kept, Chosen;
    if lo < hi {
      KeptAndChosen(s, p, lo, hi - 1);
      LastIsKeptOrChosen(s, p, lo, hi);
    } else {
      EmptyRange(s, p, lo);
    }
  }

  lemma EmptyRange<T>(s: seq<T>, p: set<nat>, lo: nat)
    requires lo <= |s|
    ensures Kept(s, p, lo, lo) == [] && Chosen(s, p, lo, lo) == [] && s[lo..lo] == []
  {
  }

  lemma LastIsKeptOrChosen<T>(s: seq<T>, p: set<nat>, lo: nat, hi: nat)
    requires lo < hi <= |s|
    requires multiset(Kept(s, p, lo, hi - 1)) + multiset(Chosen(s, p, lo, hi - 1)) == multiset(s[lo..hi - 1])
    ensures multiset(Kept(s, p, lo, hi)) + multiset(Chosen(s, p, lo, hi)) == multiset(s[lo..hi])
  {
    hide Kept, Chosen;
    var kept, chosen, x := multiset(Kept(s, p, lo, hi - 1)), multiset(Chosen(s, p, lo, hi - 1)), s[hi - 1];
    assert s[lo..hi] == s[lo..hi - 1] + [x];
    LastCounts(s, p, lo, hi);
    OneMore(kept, chosen, multiset(s[lo..hi - 1]), x);
    if hi - 1 in p {
      assert multiset(Kept(s, p, lo, hi)) + multiset(Chosen(s, p, lo, hi)) == kept + (chosen + multiset{x});
    } else {
      assert multiset(Kept(s, p, lo, hi)) + multiset(Chosen(s, p, lo, hi)) == (kept + multiset{x}) + chosen;
    }
  }

  /** The last element counts among the kept or among the chosen. */
  lemma LastCounts<T>(s: seq<T>, p: set<nat>, lo: nat, hi: nat)
    requires lo < hi <= |s|
    ensures var kept, chosen, x := multiset(Kept(s, p, lo, hi - 1)), multiset(Chosen(s, p, lo, hi - 1)), s[hi - 1];
            if hi - 1 in p then
              multiset(Kept(s, p, lo, hi)) == kept && multiset(Chosen(s, p, lo, hi)) == chosen + multiset{x}
            else
              multiset(Kept(s, p, lo, hi)) == kept + multiset{x} && multiset(Chosen(s, p, lo, hi)) == chosen
  {
    if hi - 1 in p {
      assert Kept(s, p, lo, hi) == Kept(s, p, lo, hi - 1);
    } else {
      assert Chosen(s, p, lo, hi) == Chosen(s, p, lo, hi - 1);
    }
  }

  lemma OneMore<T>(kept: multiset<T>, chosen: multiset<T>, all: multiset<T>, x: T)
    requires kept + chosen == all
    ensures (kept + multiset{x}) + chosen == all + multiset{x}
    ensures kept + (chosen + multiset{x}) == all + multiset{x}
  {
  }

  lemma {:induction false} KeptSplit<T>(s: seq<T>, p: set<nat>, lo: nat, mid: nat, hi: nat)
    requires lo <= mid <= hi <= |s|
    ensures Kept(s, p, lo, hi) == Kept(s, p, lo, mid) + Kept(s, p, mid, hi)
    decreases hi - mid
  {
    if mid < hi {
      KeptSplit(s, p, lo, mid, hi - 1);
    }
  }

  lemma {:induction false} KeptAll<T>(s: seq<T>, p: set<nat>, lo: nat, hi: nat)
    requires lo <= hi <= |s|
    requires forall o | o in p :: !(lo <= o < hi)
    ensures Kept(s, p, lo, hi) == s[lo..hi]
    decreases hi - lo
  {
    if lo < hi {
      KeptAll(s, p, lo, hi - 1);
      assert s[lo..hi] == s[lo..hi - 1] + [s[hi - 1]];
    }
  }

  lemma {:induction false} KeptSame<T>(s: seq<T>, p: set<nat>, q: set<nat>, lo: nat, hi: nat)
    requires lo <= hi <= |s|
    requires forall o: nat | lo <= o < hi :: o in p <==> o in q
    ensures Kept(s, p, lo, hi) == Kept(s, q, lo, hi)
    decreases hi - lo
  {
    if lo < hi {
      KeptSame(s, p, q, lo, hi - 1);
    }
  }

  ghost predicate AllAbove(p: set<nat>, o: nat) {
    forall o' | o' in p :: o' > o
  }

  /** Taking out one more position below all the others removes the element at that very offset. */
  lemma KeptLess<T>(s: seq<T>, p: set<nat>, lo: nat, hi: nat, o: nat)
    requires lo <= o < hi <= |s|
    requires AllAbove(p, o)
    ensures o - lo < |Kept(s, p, lo, hi)|
    ensures Kept(s, p + {o}, lo, hi) == Without(Kept(s, p, lo, hi), o - lo)
  {
    KeptAtFirst(s, p, lo, hi, o);
    KeptAtFirst(s, p + {o}, lo, hi, o);
    KeptSame(s, p, p + {o}, o + 1, hi);
    var head, tail := s[lo..o], Kept(s, p, o + 1, hi);
    assert Kept(s, p, lo, hi) == head + [s[o]] + tail;
    assert Kept(s, p + {o}, lo, hi) == head + tail;
  }

  /** With nothing taken out below o, the elements up to o are all there. */
  lemma {:induction false} KeptAtFirst<T>(s: seq<T>, p: set<nat>, lo: nat, hi: nat, o: nat)
    requires lo <= o < hi <= |s|
    requires forall o' | o' in p :: o' >= o
    ensures Kept(s, p, lo, hi) == s[lo..o] + (if o in p then [] else [s[o]]) + Kept(s, p, o + 1, hi)
    decreases hi - o
  {
    if hi == o + 1 {
      KeptAll(s, p, lo, o);
    } else {
      KeptAtFirst(s, p, lo, hi - 1, o);
    }
  }

  // ---- Index sets -------------------------------------------------------------------------------

  /** A set of positions, as its members in ascending order. */
  predicate Ascending(offsets: seq<nat>) {
    forall i, j | 0 <= i < j < |offsets| :: offsets[i] < offsets[j]
  }

  function Members(offsets: seq<nat>): set<nat> {
    set o | o in offsets
  }

  predicate InRange(offsets: seq<nat>, count: nat) {
    forall o | o in offsets :: o < count
  }

  function At<T>(s: seq<T>, offsets: seq<nat>): (r: seq<T>)
    requires InRange(offsets, |s|)
    ensures |r| == |offsets|
  {
    seq(|offsets|, i requires 0 <= i < |offsets| => assert offsets[i] in offsets; s[offsets[i]])
  }

  /** Reading the members in ascending order reads the chosen elements. */
  lemma {:induction false} AtIsChosen<T>(s: seq<T>, offsets: seq<nat>, hi: nat)
    requires Ascending(offsets) && InRange(offsets, hi) && hi <= |s|
    ensures At(s, offsets) == Chosen(s, Members(offsets), 0, hi)
    decreases |offsets|
  {
    hide Chosen, At, Ascending;
    var p := Members(offsets);
    if offsets == [] {
      ChosenNone(s, p, 0, hi);
      AtNone(s);
    } else {
      var less, last := offsets[..|offsets| - 1], offsets[|offsets| - 1];
      LastOffset(offsets);
      AtIsChosen(s, less, last);
      AtMore(s, less, last);
      ChosenSame(s, Members(less), p, 0, last);
      ChosenLast(s, p, 0, last + 1);
      ChosenSplit(s, p, 0, last + 1, hi);
      ChosenNone(s, p, last + 1, hi);
    }
  }

  lemma LastOffset(offsets: seq<nat>)
    requires Ascending(offsets) && offsets != []
    ensures var less, last := offsets[..|offsets| - 1], offsets[|offsets| - 1];
            && offsets == less + [last] && last in offsets
            && Ascending(less) && InRange(less, last)
            && (forall o | o in offsets :: o <= last) && Members(offsets) == Members(less) + {last}
  {
    var less, last := offsets[..|offsets| - 1], offsets[|offsets| - 1];
    assert offsets == less + [last];
    forall o | o in less
      ensures o < last
    {
      var i :| 0 <= i < |less| && less[i] == o;
      assert offsets[i] < offsets[|offsets| - 1];
    }
  }

  lemma AtNone<T>(s: seq<T>)
    ensures At(s, []) == []
  {
  }

  lemma AtMore<T>(s: seq<T>, offsets: seq<nat>, o: nat)
    requires InRange(offsets, |s|) && o < |s|
    ensures InRange(offsets + [o], |s|) && At(s, offsets + [o]) == At(s, offsets) + [s[o]]
  {
  }

  lemma ChosenLast<T>(s: seq<T>, p: set<nat>, lo: nat, hi: nat)
    requires lo < hi <= |s| && hi - 1 in p
    ensures Chosen(s, p, lo, hi) == Chosen(s, p, lo, hi - 1) + [s[hi - 1]]
  {
  }

  lemma {:induction false} ChosenNone<T>(s: seq<T>, p: set<nat>, lo: nat, hi: nat)
    requires lo <= hi <= |s|
    requires forall o | o in p :: !(lo <= o < hi)
    ensures Chosen(s, p, lo, hi) == []
    decreases hi - lo
  {
    if lo < hi {
      ChosenNone(s, p, lo, hi - 1);
    }
  }

  lemma {:induction false} ChosenSplit<T>(s: seq<T>, p: set<nat>, lo: nat, mid: nat, hi: nat)
    requires lo <= mid <= hi <= |s|
    ensures Chosen(s, p, lo, hi) == Chosen(s, p, lo, mid) + Chosen(s, p, mid, hi)
    decreases hi - mid
  {
    if mid < hi {
      ChosenSplit(s, p, lo, mid, hi - 1);
    }
  }

  lemma {:induction false} ChosenSame<T>(s: seq<T>, p: set<nat>, q: set<nat>, lo: nat, hi: nat)
    requires lo <= hi <= |s|
    requires forall o: nat | lo <= o < hi :: o in p <==> o in q
    ensures Chosen(s, p, lo, hi) == Chosen(s, q, lo, hi)
    decreases hi - lo
  {
    if lo < hi {
      ChosenSame(s, p, q, lo, hi - 1);
    }
  }

  // ---- The list ---------------------------------------------------------------------------------

  /** What moving the chosen elements in front of position d makes of s. */
  function Moved<T>(s: seq<T>, p: set<nat>, d: nat): seq<T>
    requires d <= |s|
  {
    Kept(s, p, 0, d) + Chosen(s, p, 0, |s|) + Kept(s, p, d, |s|)
  }

  /** A move loses and duplicates nothing. */
  lemma MovedConserves<T>(s: seq<T>, p: set<nat>, d: nat)
    requires d <= |s|
    ensures multiset(Moved(s, p, d)) == multiset(s)
    ensures Kept(s, p, 0, d) + Kept(s, p, d, |s|) == Kept(s, p, 0, |s|)
  {
    KeptAndChosen(s, p, 0, |s|);
    KeptSplit(s, p, 0, d, |s|);
    assert s[0..|s|] == s;
  }

  class RealmList<T> {
    var items: seq<T>

    constructor ()
      ensures items == []
    {
      items := [];
    }

    /** Insert one element; an index out of bounds is refused. */
    method Insert(x: T, index: int) returns (ok: bool)
      modifies this
      ensures ok <==> 0 <= index <= |old(items)|
      ensures items == if ok then old(items)[..index] + [x] + old(items)[index..] else old(items)
    {
      ok := 0 <= index <= |items|;
      if ok {
        items := items[..index] + [x] + items[index..];
      }
    }

    /** Remove one element; an index out of bounds is refused. */
    method RemoveAt(index: int) returns (ok: bool)
      modifies this
      ensures ok <==> 0 <= index < |old(items)|
      ensures items == if ok then Without(old(items), index) else old(items)
    {
      ok := 0 <= index < |items|;
      if ok {
        items := items[..index] + items[index + 1..];
      }
    }

    /** Remove hi - lo times at lo. If the range ends beyond the list, everything from lo on is gone when the
        removal is refused.
     */
    method RemoveSubrange(lo: int, hi: int) returns (ok: bool)
      requires lo <= hi
      modifies this
      ensures ok <==> lo == hi || (0 <= lo && hi <= |old(items)|)
      ensures ok && lo < hi ==> items == old(items)[..lo] + old(items)[hi..]
      ensures ok && lo == hi ==> items == old(items)
      ensures !ok ==> items == if 0 <= lo < |old(items)| then old(items)[..lo] else old(items)
    {
      ghost var s := items;
      var i := lo;
      while i < hi
        invariant lo <= i <= hi
        invariant i == lo ==> items == s
        invariant lo < i ==> 0 <= lo && i <= |s| && items == s[..lo] + s[i..]
      {
        ok := RemoveAt(lo);
        if !ok {
          return;
        }
        i := i + 1;
      }
      ok := true;
    }

    /** Insert the elements one after the other at a running index. */
    method InsertContentsOf(xs: seq<T>, index: int) returns (ok: bool)
      modifies this
      ensures ok <==> xs == [] || 0 <= index <= |old(items)|
      ensures items == if ok && xs != [] then old(items)[..index] + xs + old(items)[index..] else old(items)
    {
      ghost var s := items;
      var currentIndex := index;
      var i := 0;
      while i < |xs|
        invariant 0 <= i <= |xs| && currentIndex == index + i
        invariant i == 0 ==> items == s
        invariant 0 < i ==> 0 <= index <= |s| && items == s[..index] + xs[..i] + s[index..]
      {
        assert 0 < i ==> items[..currentIndex] == s[..index] + xs[..i] && items[currentIndex..] == s[index..];
        ok := Insert(xs[i], currentIndex);
        if !ok {
          return;
        }
        assert xs[..i + 1] == xs[..i] + [xs[i]];
        currentIndex := currentIndex + 1;
        i := i + 1;
      }
      ok := true;
    }

    /** Remove at the lower bound, then insert the new elements there from last to first. */
    method ReplaceSubrange(lo: int, hi: int, xs: seq<T>) returns (ok: bool)
      requires lo <= hi
      modifies this
      ensures ok <==> (lo == hi && xs == []) || (0 <= lo && hi <= |old(items)|)
      ensures ok && 0 <= lo && hi <= |old(items)| ==> items == old(items)[..lo] + xs + old(items)[hi..]
      ensures ok && !(0 <= lo && hi <= |old(items)|) ==> items == old(items)
      ensures !ok ==> items == if 0 <= lo < |old(items)| then old(items)[..lo] else old(items)
    {
      ghost var s := items;
      var i := lo;
      while i < hi
        invariant lo <= i <= hi
        invariant i == lo ==> items == s
        invariant lo < i ==> 0 <= lo && i <= |s| && items == s[..lo] + s[i..]
      {
        ok := RemoveAt(lo);
        if !ok {
          return;
        }
        i := i + 1;
      }
      var j := |xs|;
      ghost var cut := items;
      ghost var fits := 0 <= lo && hi <= |s|;
      ghost var head, tail := if fits then s[..lo] else [], if fits then s[hi..] else [];
      assert fits ==> cut == head + tail && |head| == lo;
      ghost var done: seq<T> := [];
      assert fits ==> head + done + tail == cut;
      while j > 0
        invariant 0 <= j <= |xs| && done == xs[j..]
        invariant fits ==> items == head + done + tail
        invariant !fits ==> j == |xs| && items == s && lo == hi
      {
        j := j - 1;
        InsertBetween(head, done, tail, xs[j]);
        done := [xs[j]] + done;
        assert fits ==> head + done + tail == items[..lo] + [xs[j]] + items[lo..];
        ok := Insert(xs[j], lo);
        if !ok {
          return;
        }
      }
      assert xs[0..] == xs;
      ok := true;
    }

    /** The other splice: remove the range, then insert the new elements at a running index. */
    method ReplaceInTwoSteps(lo: int, hi: int, xs: seq<T>) returns (ok: bool)
      requires lo <= hi
      modifies this
      ensures ok <==> (lo == hi && xs == []) || (0 <= lo && hi <= |old(items)|)
      ensures ok && 0 <= lo && hi <= |old(items)| ==> items == old(items)[..lo] + xs + old(items)[hi..]
      ensures ok && !(0 <= lo && hi <= |old(items)|) ==> items == old(items)
      ensures !ok ==> items == if 0 <= lo < |old(items)| then old(items)[..lo] else old(items)
    {
      ok := RemoveSubrange(lo, hi);
      if ok {
        assert 0 <= lo && hi <= |old(items)| ==>
            items[..lo] == old(items)[..lo] && items[lo..] == old(items)[hi..];
        ok := InsertContentsOf(xs, lo);
      }
    }

    method RemoveFirst(number: int) returns (ok: bool)
      modifies this
      ensures ok <==> 0 <= number <= |old(items)|
      ensures items == if ok then old(items)[number..] else old(items)
    {
      if number < 0 || number > |items| {
        return false;
      }
      ghost var s := items;
      var i := 0;
      while i < number
        invariant 0 <= i <= number && items == s[i..]
      {
        ok := RemoveAt(0);
        i := i + 1;
      }
      ok := true;
    }

    method RemoveLast(number: int) returns (ok: bool)
      modifies this
      ensures ok <==> 0 <= number <= |old(items)|
      ensures items == if ok then old(items)[..|old(items)| - number] else old(items)
    {
      if number < 0 || number > |items| {
        return false;
      }
      ghost var s := items;
      var i := 0;
      while i < number
        invariant 0 <= i <= number && items == s[..|s| - i]
      {
        ok := RemoveAt(|items| - 1);
        i := i + 1;
      }
      ok := true;
    }

    /** Remove the elements at a set of offsets, from the largest offset down. */
    method RemoveAtOffsets(offsets: seq<nat>) returns (ok: bool)
      requires Ascending(offsets)
      modifies this
      ensures ok <==> InRange(offsets, |old(items)|)
      ensures items == if ok then Kept(old(items), Members(offsets), 0, |old(items)|) else old(items)
    {
      ghost var s := items;
      var k := |offsets|;
      KeptAll(s, {}, 0, |s|);
      assert Members(offsets[k..]) == {};
      while k > 0
        invariant 0 <= k <= |offsets|
        invariant k < |offsets| ==> InRange(offsets, |s|)
        invariant items == Kept(s, Members(offsets[k..]), 0, |s|)
      {
        k := k - 1;
        MembersFrom(offsets, k);
        if k + 1 == |offsets| && offsets[k] < |s| {
          LastIsLargest(offsets, |s|);
        }
        assert offsets[k] in offsets;
        if offsets[k] < |s| {
          KeptLess(s, Members(offsets[k + 1..]), 0, |s|, offsets[k]);
        }
        ok := RemoveAt(offsets[k]);
        if !ok {
          return;
        }
      }
      assert offsets[0..] == offsets;
      ok := true;
    }

    /** Copy the chosen elements in front of the destination, then remove the originals from the largest
        offset down, each shifted if it now lies behind the copies.
     */
    method MoveFromOffsets(offsets: seq<nat>, destination: int) returns (ok: bool)
      requires Ascending(offsets)
      modifies this
      ensures ok <==> offsets == [] || (InRange(offsets, |old(items)|) && 0 <= destination <= |old(items)|)
      ensures ok && offsets != [] ==> items == Moved(old(items), Members(offsets), destination)
      ensures !ok || offsets == [] ==> items == old(items)
    {
      ghost var s := items;
      var tmp;
      ok, tmp := ElementsAt(offsets);
      if !ok {
        return;
      }
      ok := InsertContentsOf(tmp, destination);
      if !ok || offsets == [] {
        return;
      }
      KeptAll(s, {}, 0, destination);
      KeptAll(s, {}, destination, |s|);
      RemoveOriginals(offsets, destination, |tmp|, s, tmp);
      AtIsChosen(s, offsets, |s|);
    }

    /** The elements at the given offsets; an offset out of bounds is refused. */
    method ElementsAt(offsets: seq<nat>) returns (ok: bool, tmp: seq<T>)
      ensures ok <==> InRange(offsets, |items|)
      ensures ok ==> tmp == At(items, offsets)
    {
      tmp := [];
      var i := 0;
      while i < |offsets|
        invariant 0 <= i <= |offsets| && InRange(offsets[..i], |items|)
        invariant tmp == At(items, offsets[..i])
      {
        assert offsets[i] in offsets;
        if offsets[i] >= |items| {
          return false, tmp;
        }
        assert offsets[..i + 1] == offsets[..i] + [offsets[i]];
        tmp := tmp + [items[offsets[i]]];
        i := i + 1;
      }
      assert offsets[..i] == offsets;
      ok := true;
    }

    /** Remove the originals of the copies that stand at the destination. */
    method RemoveOriginals(offsets: seq<nat>, destination: nat, count: nat, ghost s: seq<T>, ghost tmp: seq<T>)
      requires Ascending(offsets) && InRange(offsets, |s|) && destination <= |s| && count == |tmp|
      requires items == MovedSoFar(s, {}, tmp, destination)
      modifies this
      ensures items == MovedSoFar(s, Members(offsets), tmp, destination)
    {
      var k := |offsets|;
      ghost var gone: set<nat> := {};
      while k > 0
        invariant 0 <= k <= |offsets| && gone == Members(offsets[k..])
        invariant items == MovedSoFar(s, gone, tmp, destination)
      {
        k := k - 1;
        var o := offsets[k];
        MembersFrom(offsets, k);
        assert o in offsets;
        MovedStep(s, gone, tmp, destination, o);
        gone := gone + {o};
        if o >= destination {
          o := o + count;
        }
        assert MovedSoFar(s, gone, tmp, destination) == Without(items, o);
        var ok := RemoveAt(o);
      }
      assert offsets[0..] == offsets;
    }
  }

  /** The list during a move: positions p of s are gone already, copies of all chosen elements are in. */
  function MovedSoFar<T>(s: seq<T>, p: set<nat>, tmp: seq<T>, d: nat): seq<T>
    requires d <= |s|
  {
    Kept(s, p, 0, d) + tmp + Kept(s, p, d, |s|)
  }

  /** Removing the original at o, all larger ones being gone, is removing at o or at o behind the copies. */
  lemma MovedStep<T>(s: seq<T>, p: set<nat>, tmp: seq<T>, d: nat, o: nat)
    requires d <= |s| && o < |s| && AllAbove(p, o)
    ensures var items := MovedSoFar(s, p, tmp, d);
            var at := if o >= d then o + |tmp| else o;
            && at < |items|
            && MovedSoFar(s, p + {o}, tmp, d) == Without(items, at)
  {
    var head, tail := Kept(s, p, 0, d), Kept(s, p, d, |s|);
    if o < d {
      KeptLess(s, p, 0, d, o);
      KeptSame(s, p, p + {o}, d, |s|);
      CutHead(head, tmp, tail, o);
    } else {
      KeptLess(s, p, d, |s|, o);
      KeptSame(s, p, p + {o}, 0, d);
      KeptAll(s, p, 0, d);
      CutTail(head, tmp, tail, o - d);
    }
  }

  lemma CutHead<T>(head: seq<T>, mid: seq<T>, tail: seq<T>, i: nat)
    requires i < |head|
    ensures Without(head + mid + tail, i) == Without(head, i) + mid + tail
  {
    var whole := head + mid + tail;
    assert whole[i + 1..] == head[i + 1..] + mid + tail;
  }

  lemma CutTail<T>(head: seq<T>, mid: seq<T>, tail: seq<T>, i: nat)
    requires i < |tail|
    ensures Without(head + mid + tail, |head| + |mid| + i) == head + mid + Without(tail, i)
  {
    var whole := head + mid + tail;
    var at := |head| + |mid| + i;
    assert whole[..at] == head + mid + tail[..i];
    assert whole[at + 1..] == tail[i + 1..];
  }

  lemma InsertBetween<T>(head: seq<T>, mid: seq<T>, tail: seq<T>, x: T)
    ensures var whole := head + mid + tail;
            whole[..|head|] + [x] + whole[|head|..] == head + ([x] + mid) + tail
  {
    var whole := head + mid + tail;
    assert whole[|head|..] == mid + tail;
  }

  lemma MembersFrom(offsets: seq<nat>, k: nat)
    requires Ascending(offsets) && k < |offsets|
    ensures Members(offsets[k..]) == Members(offsets[k + 1..]) + {offsets[k]}
    ensures AllAbove(Members(offsets[k + 1..]), offsets[k])
  {
    assert offsets[k..] == [offsets[k]] + offsets[k + 1..];
  }

  lemma LastIsLargest(offsets: seq<nat>, count: nat)
    requires Ascending(offsets) && offsets != [] && offsets[|offsets| - 1] < count
    ensures InRange(offsets, count)
  {
    forall o | o in offsets
      ensures o < count
    {
      var i :| 0 <= i < |offsets| && offsets[i] == o;
      assert i < |offsets| - 1 ==> offsets[i] < offsets[|offsets| - 1];
    }
  }
}
