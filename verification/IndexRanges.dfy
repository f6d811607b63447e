/** Index sets as ranges that are changed in place: sorted, not empty, and with gaps between them. */
module IndexRanges {
  import opened Store
  import opened ListOps
  import opened ChunkedRanges
  import opened IndexSets

  /** Between any two ranges at least one index is missing. */
  predicate Apart(ranges: seq<Range>) {
    && NoEmptyRange(ranges)
    && (forall i, j | 0 <= i < j < |ranges| :: ranges[i].second < ranges[j].first)
  }

  /** The range at k is the first that ends behind index. */
  predicate Found(ranges: seq<Range>, k: nat, index: nat) {
    && k <= |ranges|
    && (forall i | 0 <= i < k :: ranges[i].second <= index)
    && (forall i | k <= i < |ranges| :: index < ranges[i].second)
  }

  /** The set of the indexes in the ranges. */
  ghost function Set(ranges: seq<Range>): set<nat> {
    Members(Indexes(ranges))
  }

  lemma InSet(ranges: seq<Range>, x: nat)
    ensures x in Set(ranges) <==> Contains(ranges, x)
  {
    IndexesContained(ranges, x);
  }

  // ---- Parts ------------------------------------------------------------------------------------

  lemma ContainsParts(a: seq<Range>, b: seq<Range>, x: nat)
    ensures Contains(a + b, x) <==> Contains(a, x) || Contains(b, x)
  {
    var c := a + b;
    if i :| 0 <= i < |c| && c[i].first <= x < c[i].second {
      assert i < |a| ==> a[i] == c[i];
      assert i >= |a| ==> b[i - |a|] == c[i];
    }
    if i :| 0 <= i < |a| && a[i].first <= x < a[i].second {
      assert c[i] == a[i];
    }
    if i :| 0 <= i < |b| && b[i].first <= x < b[i].second {
      assert c[|a| + i] == b[i];
    }
  }

  /** All ranges moved up, or down if there is room. */
  function Slid(ranges: seq<Range>, d: int): (slid: seq<Range>)
    requires forall r | r in ranges :: r.first + d >= 0 && r.second + d >= 0
    ensures |slid| == |ranges|
    ensures forall i | 0 <= i < |ranges| :: slid[i] == Range(ranges[i].first + d, ranges[i].second + d)
  {
    seq(|ranges|, i requires 0 <= i < |ranges| =>
      assert ranges[i] in ranges; Range(ranges[i].first + d, ranges[i].second + d))
  }

  lemma ContainsSlid(ranges: seq<Range>, d: int, x: nat)
    requires forall r | r in ranges :: r.first + d >= 0 && r.second + d >= 0
    ensures Contains(Slid(ranges, d), x) <==> x - d >= 0 && Contains(ranges, x - d)
  {
    var slid := Slid(ranges, d);
    if i :| 0 <= i < |slid| && slid[i].first <= x < slid[i].second {
      assert ranges[i].first <= x - d < ranges[i].second;
    }
    if x - d >= 0 && Contains(ranges, x - d) {
      var i :| 0 <= i < |ranges| && ranges[i].first <= x - d < ranges[i].second;
      assert slid[i].first <= x < slid[i].second;
    }
  }

  // ---- In place ---------------------------------------------------------------------------------

  class RangeSet {
    var ranges: seq<Range>

    ghost predicate Valid()
      reads this
    {
      Apart(ranges)
    }

    ghost function Value(): set<nat>
      reads this
    {
      Set(ranges)
    }

    method Find(index: nat) returns (k: nat)
      requires Valid()
      ensures Found(ranges, k, index)
    {
      k := 0;
      while k < |ranges| && ranges[k].second <= index
        invariant 0 <= k <= |ranges| && forall i | 0 <= i < k :: ranges[i].second <= index
      {
        k := k + 1;
      }
    }

    method HasIndex(index: nat) returns (r: bool)
      requires Valid()
      ensures r <==> index in Value()
    {
      var k := Find(index);
      r := k < |ranges| && ranges[k].first <= index;
      InSet(ranges, index);
    }

    /** Add an index in front of the range at k or to it, or to the end of the one before, joining them if they meet. */
    method DoAdd(k: nat, index: nat) returns (at: nat)
      requires Valid() && Found(ranges, k, index)
      modifies this
      ensures Valid() && Value() == old(Value()) + {index}
      ensures at < |ranges| && ranges[at].first <= index < ranges[at].second
      ensures (k < |old(ranges)| ==> index + 1 < old(ranges)[k].first) ==>
                ranges[at].second == index + 1 && ranges[at + 1..] == old(ranges)[k..]
    {
      hide Set, Apart;
      ApartAround(ranges, k);
      if k < |ranges| && ranges[k].first <= index {
        InSet(ranges, index);
        at := k;
      } else if k > 0 && ranges[k - 1].second == index {
        at := k - 1;
        if k < |ranges| && index + 1 == ranges[k].first {
          AddJoins(ranges, k, index);
          ranges := ranges[..k - 1] + [Range(ranges[k - 1].first, ranges[k].second)] + ranges[k + 1..];
        } else {
          AddAfter(ranges, k, index);
          ranges := ranges[..k - 1] + [Range(ranges[k - 1].first, index + 1)] + ranges[k..];
        }
      } else if k < |ranges| && ranges[k].first == index + 1 {
        AddBefore(ranges, k, index);
        ranges := ranges[..k] + [Range(index, ranges[k].second)] + ranges[k + 1..];
        at := k;
      } else {
        AddBetween(ranges, k, index);
        ranges := ranges[..k] + [Range(index, index + 1)] + ranges[k..];
        at := k;
      }
    }

    method Add(index: nat)
      requires Valid()
      modifies this
      ensures Valid() && Value() == old(Value()) + {index}
    {
      var k := Find(index);
      var at := DoAdd(k, index);
    }

    /** Positions from index on move up by count, and the positions that become free are in the set. */
    method InsertAt(index: nat, count: nat)
      requires Valid() && count > 0
      modifies this
      ensures Valid() && Value() == Inserted(old(Value()), Members(Block(index, count)))
    {
      hide Apart, Set, Inserted, Shifted, Slid, Block, Members;
      var k: nat := Find(index);
      if k < |ranges| && ranges[k].first <= index {
        Widens(ranges, k, index, count);
        ranges := ranges[..k] + [Range(ranges[k].first, ranges[k].second + count)] + Slid(ranges[k + 1..], count);
      } else {
        MovesUp(ranges, k, index, count);
        FillStart(Set(ranges), index, count);
        ghost var tail := Slid(ranges[k..], count);
        ranges := ranges[..k] + Slid(ranges[k..], count);
        assert ranges[k..] == tail;
        assert k < |ranges| ==> ranges[k] == tail[0];
        Fill(k, index, count);
      }
    }

    /** Add all indexes of a gap one by one. */
    method Fill(start: nat, index: nat, count: nat)
      requires Valid() && Found(ranges, start, index)
      requires start < |ranges| ==> index + count < ranges[start].first
      modifies this
      ensures Valid() && Value() == old(Value()) + Members(Block(index, count))
    {
      hide Apart, Set, Block, Members;
      var k: nat, i: nat := start, 0;
      BlockGrows(index, 0);
      while i < count
        invariant 0 <= i <= count && k <= |ranges| && Valid() && Found(ranges, k, index + i)
        invariant ranges[k..] == old(ranges)[start..]
        invariant Set(ranges) == old(Value()) + Members(Block(index, i))
      {
        assert k < |ranges| ==> ranges[k] == ranges[k..][0] == old(ranges)[start];
        BlockGrows(index, i);
        var at := DoAdd(k, index + i);
        FoundNext(ranges, at, index + i + 1);
        k := at + 1;
        i := i + 1;
      }
    }

    /** Positions from index on move up by count, and the positions that become free are not in the set. */
    method ShiftForInsertAt(index: nat, count: nat)
      requires Valid() && count > 0
      modifies this
      ensures Valid() && Value() == Shifted(old(Value()), Members(Block(index, count)))
    {
      hide Apart, Set, Shifted, Slid;
      var k := Find(index);
      if k < |ranges| && ranges[k].first < index {
        Splits(ranges, k, index, count);
        ranges := ranges[..k] + [Range(ranges[k].first, index), Range(index + count, ranges[k].second + count)]
                + Slid(ranges[k + 1..], count);
      } else {
        MovesUp(ranges, k, index, count);
        ranges := ranges[..k] + Slid(ranges[k..], count);
      }
    }

    /** Position index is taken out, and positions behind it move down. */
    method EraseAt(index: nat)
      requires Valid()
      modifies this
      ensures Valid() && Value() == Erased(old(Value()), {index})
    {
      var k := Find(index);
      if k < |ranges| {
        DoErase(k, index);
      } else {
        NothingBehind(ranges, k, index);
      }
    }

    method DoErase(k: nat, index: nat)
      requires Valid() && Found(ranges, k, index) && k < |ranges|
      modifies this
      ensures Valid() && Value() == Erased(old(Value()), {index})
    {
      hide Apart, Set, Erased, Found, Slid;
      RoomBelow(ranges, k, index);
      var r, rest := ranges[k], Slid(ranges[k + 1..], -1);
      if r.first <= index {
        ErasesIn(ranges, k, index);
        if r.first + 1 == r.second {
          ranges := ranges[..k] + [] + rest;
        } else {
          ranges := ranges[..k] + [Range(r.first, r.second - 1)] + rest;
        }
      } else if k > 0 && ranges[k - 1].second + 1 == r.first {
        ErasesGap(ranges, k, index);
        var prev := ranges[k - 1];
        ranges := ranges[..k - 1] + [Range(prev.first, prev.second + (r.second - r.first))] + rest;
      } else {
        ErasesBetween(ranges, k, index);
        ranges := ranges[..k] + [Range(r.first - 1, r.second - 1)] + rest;
      }
    }

    /** Position index is taken out, unless it is in the set told where it was before those of the set were put in. */
    method EraseOrUnshift(index: nat) returns (shifted: Option<nat>)
      requires Valid()
      modifies this
      ensures Valid() && Value() == Erased(old(Value()), {index})
      ensures shifted == if index in old(Value()) then None else Some(Unshift(old(Value()), index))
    {
      hide Apart, Set, Erased, Unshift;
      var length: nat, k: nat := 0, 0;
      ghost var was := Set(ranges);
      assert ranges[..0] == [];
      while k < |ranges| && ranges[k].second <= index
        modifies {}
        invariant 0 <= k <= |ranges| && length == TotalLength(ranges[..k])
        invariant forall i | 0 <= i < k :: ranges[i].second <= index
      {
        LengthStep(ranges, k);
        length := length + (ranges[k].second - ranges[k].first);
        k := k + 1;
      }
      IsFound(ranges, k, index);
      InSet(ranges, index);
      InFound(ranges, k, index);
      if index !in was {
        UnshiftLength(ranges, k, index);
      }
      if k == |ranges| {
        NothingBehind(ranges, k, index);
        return Some(index - length);
      }
      var unshifted: nat := if ranges[k].first <= index then 0 else index - length;
      shifted := if ranges[k].first <= index then None else Some(unshifted);
      DoErase(k, index);
    }

    /** The position outside the set that goes to index when the set is taken out. */
    method Shift(index: nat) returns (shifted: nat)
      requires Valid()
      ensures shifted == IndexSets.Shift(Value(), index)
    {
      var k;
      shifted, k := ShiftPast(index);
    }

    method ShiftPast(index: nat) returns (shifted: nat, k: nat)
      requires Valid()
      ensures shifted == IndexSets.Shift(Value(), index) && Found(ranges, k, shifted)
    {
      hide Apart, Set, Unshift;
      shifted, k := index, 0;
      assert ranges[..0] == [];
      while k < |ranges| && ranges[k].first <= shifted
        invariant 0 <= k <= |ranges| && shifted == index + TotalLength(ranges[..k])
        invariant forall i | 0 <= i < k :: ranges[i].second <= shifted
      {
        LengthStep(ranges, k);
        shifted := shifted + (ranges[k].second - ranges[k].first);
        k := k + 1;
      }
      ApartAround(ranges, k);
      IsFound(ranges, k, shifted);
      InFound(ranges, k, shifted);
      InSet(ranges, shifted);
      UnshiftLength(ranges, k, shifted);
      ShiftUndoesUnshift(Set(ranges), shifted);
    }

    /** Add the position that goes to index when the set is taken out. */
    method AddShifted(index: nat) returns (shifted: nat)
      requires Valid()
      modifies this
      ensures Valid() && shifted == IndexSets.Shift(old(Value()), index) && Value() == old(Value()) + {shifted}
    {
      var k;
      shifted, k := ShiftPast(index);
      var at := DoAdd(k, shifted);
    }

    /** Take positions out of the set. No position moves. */
    method Remove(index: nat, count: nat)
      requires Valid() && count > 0
      modifies this
      ensures Valid() && Value() == old(Value()) - Members(Block(index, count))
    {
      hide Apart, Set, Found, Block, Members;
      var begin: nat, end := index, index + count;
      ghost var was, low := Set(ranges), index;
      var it: nat := Find(begin);
      assert was - Members(Block(index, 0)) == was by {
        BlockMembers([], index);
      }
      while it < |ranges| && ranges[it].first < end
        modifies this
        invariant Valid() && index <= begin <= low <= end && begin < end
        invariant it <= |ranges| && Found(ranges, it, begin)
        invariant Set(ranges) == was - Members(Block(index, low - index))
        decreases Set(ranges)
      {
        var r := ranges[it];
        ghost var stop := if end < r.second then end else r.second;
        ApartAround(ranges, it);
        FoundBehind(ranges, it, begin);
        CutJoins(ranges, it, was, index, low, begin, stop);
        begin := if r.first > begin then r.first else begin;
        CutOff(ranges, it, begin, end);
        low := stop;
        if r.first < begin && end < r.second {
          ranges := ranges[..it] + [Range(r.first, begin), Range(end, r.second)] + ranges[it + 1..];
        } else if begin == r.first && r.second <= end {
          ranges := ranges[..it] + [] + ranges[it + 1..];
        } else if begin == r.first {
          ranges := ranges[..it] + [Range(end, r.second)] + ranges[it + 1..];
        } else {
          ranges := ranges[..it] + [Range(r.first, begin)] + ranges[it + 1..];
        }
        it := Find(begin);
      }
      AllCut(ranges, it, was, index, low, begin, count);
    }

    /** Append an index behind all others, to the last range if it meets it. */
    method PushBack(index: nat)
      requires Valid() && forall x | x in Value() :: x < index
      modifies this
      ensures Valid() && Value() == old(Value()) + {index}
    {
      hide Apart, Set;
      var n := |ranges|;
      assert ranges[..n] == ranges && ranges[n..] == [];
      if n > 0 {
        LastInSet(ranges);
        assert ranges[n - 1].second - 1 in Value();
      }
      if n > 0 && ranges[n - 1].second == index {
        AddAfter(ranges, n, index);
        var last := [Range(ranges[n - 1].first, index + 1)];
        assert ranges[..n - 1] + last + ranges[n..] == ranges[..n - 1] + last;
        ranges := ranges[..n - 1] + last;
      } else {
        AddBetween(ranges, n, index);
        var last := [Range(index, index + 1)];
        assert ranges[..n] + last + ranges[n..] == ranges + last;
        ranges := ranges + last;
      }
    }
  }

  /** What is left of range k when positions begin up to end are taken out. */
  function Uncut(r: Range, begin: nat, end: nat): seq<Range>
  {
    if r.first < begin && end < r.second then [Range(r.first, begin), Range(end, r.second)]
    else if begin == r.first && r.second <= end then []
    else if begin == r.first then [Range(end, r.second)]
    else [Range(r.first, begin)]
  }

  lemma CutOff(ranges: seq<Range>, k: nat, begin: nat, end: nat)
    requires Apart(ranges) && k < |ranges| && ranges[k].first <= begin < ranges[k].second && begin < end
    ensures var now := ranges[..k] + Uncut(ranges[k], begin, end) + ranges[k + 1..];
            var stop := if end < ranges[k].second then end else ranges[k].second;
            && Apart(now) && Set(now) == Set(ranges) - Members(Block(begin, stop - begin))
            && begin in Set(ranges) && begin in Members(Block(begin, stop - begin))
  {
    hide Apart, Contains, Set, Slid;
    var r, parts := ranges[k], Uncut(ranges[k], begin, end);
    var stop := if end < r.second then end else r.second;
    assert Slid(ranges[k + 1..], 0) == ranges[k + 1..];
    UncutApart(r, begin, end);
    ApartAround(ranges, k);
    ApartNext(ranges, k);
    Rebuilt(ranges, k, k + 1, parts, 0);
    InSet(ranges, begin);
    ContainsRange(ranges, k, begin);
    forall n: nat
      ensures n in Set(ranges[..k] + parts + ranges[k + 1..]) <==> n in Set(ranges) && !(begin <= n < stop)
    {
      InRebuilt(ranges, k, k + 1, parts, 0, n);
      assert ranges[k..k + 1] == [r];
      FewRanges(r, r);
      InUncut(r, begin, end, n);
      OthersOutside(ranges, k, n);
    }
    assert Set(ranges[..k] + parts + ranges[k + 1..]) == Set(ranges) - Members(Block(begin, stop - begin));
  }

  lemma FoundBehind(ranges: seq<Range>, k: nat, index: nat)
    requires Found(ranges, k, index) && k < |ranges|
    ensures index < ranges[k].second
  {
  }

  lemma UncutApart(r: Range, begin: nat, end: nat)
    requires r.first <= begin < r.second && begin < end
    ensures var parts := Uncut(r, begin, end);
            Apart(parts) && (parts != [] ==> r.first <= parts[0].first && parts[|parts| - 1].second <= r.second)
  {
  }

  lemma InUncut(r: Range, begin: nat, end: nat, n: nat)
    requires r.first <= begin < r.second && begin < end
    ensures Contains(Uncut(r, begin, end), n) <==> r.first <= n < r.second && !(begin <= n < end)
  {
    FewRanges(Range(r.first, begin), Range(end, r.second));
    FewRanges(Range(end, r.second), r);
  }

  lemma ApartNext(ranges: seq<Range>, k: nat)
    requires Apart(ranges) && k < |ranges|
    ensures k + 1 < |ranges| ==> ranges[k].second < ranges[k + 1].first
    ensures 0 < k && k + 1 < |ranges| ==> ranges[k - 1].second < ranges[k + 1].first
  {
  }

  lemma ContainsRange(ranges: seq<Range>, k: nat, n: nat)
    requires k < |ranges| && ranges[k].first <= n < ranges[k].second
    ensures Contains(ranges, n)
  {
  }

  lemma OthersOutside(ranges: seq<Range>, k: nat, n: nat)
    requires Apart(ranges) && k < |ranges|
    ensures Contains(ranges[..k], n) || Contains(ranges[k + 1..], n) ==> !(ranges[k].first <= n < ranges[k].second)
  {
    if Contains(ranges[k + 1..], n) {
      var i :| 0 <= i < |ranges[k + 1..]| && ranges[k + 1..][i].first <= n < ranges[k + 1..][i].second;
      assert ranges[k + 1..][i] == ranges[k + 1 + i];
    }
    if i :| 0 <= i < k && ranges[..k][i].first <= n < ranges[..k][i].second {
      assert ranges[..k][i] == ranges[i];
    }
  }

  /** No index from begin on stands before the range found for it. */
  lemma FromFound(ranges: seq<Range>, k: nat, begin: nat, n: nat)
    requires Apart(ranges) && k <= |ranges| && Found(ranges, k, begin) && begin <= n && n in Set(ranges)
    ensures k < |ranges| && ranges[k].first <= n
  {
    hide Apart, Contains, Set, Found;
    InSet(ranges, n);
    assert ranges == ranges[..k] + ranges[k..];
    ContainsParts(ranges[..k], ranges[k..], n);
    FoundBounds(ranges, k, begin, n);
    NoneFromEnd(ranges, k, n);
  }

  lemma CutJoins(ranges: seq<Range>, k: nat, was: set<nat>, index: nat, low: nat, begin: nat, stop: nat)
    requires Apart(ranges) && Found(ranges, k, begin) && k < |ranges| && index <= begin <= low
    requires Set(ranges) == was - Members(Block(index, low - index))
    requires ranges[k].first < stop && begin < stop <= ranges[k].second
    ensures var begin' := if ranges[k].first > begin then ranges[k].first else begin;
            && low <= begin' < stop
            && Set(ranges) - Members(Block(begin', stop - begin')) == was - Members(Block(index, stop - index))
  {
    hide Apart, Contains, Set, Found;
    var begin' := if ranges[k].first > begin then ranges[k].first else begin;
    ContainsRange(ranges, k, begin');
    InSet(ranges, begin');
    forall n: nat | low <= n && n in Set(ranges)
      ensures begin' <= n
    {
      FromFound(ranges, k, begin, n);
    }
  }

  lemma AllCut(ranges: seq<Range>, k: nat, was: set<nat>, index: nat, low: nat, begin: nat, count: nat)
    requires Apart(ranges) && k <= |ranges| && Found(ranges, k, begin) && index <= begin <= low <= index + count
    requires k < |ranges| ==> index + count <= ranges[k].first
    requires Set(ranges) == was - Members(Block(index, low - index))
    ensures Set(ranges) == was - Members(Block(index, count))
  {
    hide Apart, Contains, Set, Found;
    forall n: nat | low <= n && n in Set(ranges)
      ensures index + count <= n
    {
      FromFound(ranges, k, begin, n);
    }
  }

  lemma LastInSet(ranges: seq<Range>)
    requires Apart(ranges) && ranges != []
    ensures ranges[|ranges| - 1].second > 0 && ranges[|ranges| - 1].second - 1 in Set(ranges)
  {
    var r := ranges[|ranges| - 1];
    InSet(ranges, r.second - 1);
    ContainsRange(ranges, |ranges| - 1, r.second - 1);
  }

  lemma LengthStep(ranges: seq<Range>, k: nat)
    requires Apart(ranges) && k < |ranges|
    ensures ranges[k].first < ranges[k].second
    ensures TotalLength(ranges[..k + 1]) == TotalLength(ranges[..k]) + (ranges[k].second - ranges[k].first)
  {
    assert ranges[..k + 1][..k] == ranges[..k];
  }

  lemma IsFound(ranges: seq<Range>, k: nat, index: nat)
    requires Apart(ranges) && k <= |ranges| && forall i | 0 <= i < k :: ranges[i].second <= index
    requires k < |ranges| ==> index < ranges[k].second
    ensures Found(ranges, k, index)
  {
  }

  lemma InFound(ranges: seq<Range>, k: nat, index: nat)
    requires Apart(ranges) && Found(ranges, k, index)
    ensures Contains(ranges, index) <==> k < |ranges| && ranges[k].first <= index
  {
  }

  lemma NoIndexes()
    ensures Indexes([]) == []
  {
  }

  lemma LastIndexes(ranges: seq<Range>, most: seq<Range>, last: Range)
    requires ranges == most + [last]
    ensures Indexes(ranges) == Indexes(most) + Span(last)
  {
    assert ranges[..|ranges| - 1] == most;
  }

  lemma {:induction false} IndexesJoin(a: seq<Range>, b: seq<Range>)
    ensures Indexes(a + b) == Indexes(a) + Indexes(b)
    decreases |b|
  {
    hide Indexes, Span;
    if b == [] {
      assert a + b == a;
      NoIndexes();
    } else {
      var most, last := b[..|b| - 1], b[|b| - 1];
      IndexesJoin(a, most);
      assert b == most + [last] && a + b == a + most + [last];
      LastIndexes(a + b, a + most, last);
      LastIndexes(b, most, last);
      assert Indexes(a) + Indexes(most) + Span(last) == Indexes(a) + (Indexes(most) + Span(last));
    }
  }

  /** An index outside the set goes down by the length of all ranges before it. */
  lemma UnshiftLength(ranges: seq<Range>, k: nat, index: nat)
    requires Apart(ranges) && Found(ranges, k, index) && index !in Set(ranges)
    ensures TotalLength(ranges[..k]) <= index
    ensures Unshift(Set(ranges), index) == index - TotalLength(ranges[..k])
  {
    hide Unshift, Indexes, TotalLength, Contains;
    var a, b := Indexes(ranges[..k]), Indexes(ranges[k..]);
    assert ranges == ranges[..k] + ranges[k..];
    IndexesJoin(ranges[..k], ranges[k..]);
    IndexesAscend(ranges);
    IndexesAscend(ranges[..k]);
    InSet(ranges, index);
    InFound(ranges, k, index);
    forall x | x in a
      ensures x < index
    {
      IndexesContained(ranges[..k], x);
      FoundBounds(ranges, k, index, x);
    }
    forall x | x in b
      ensures index <= x
    {
      IndexesContained(ranges[k..], x);
      NoneFromEnd(ranges, k, x);
      FoundBounds(ranges, k, index, x);
    }
    assert forall i | 0 <= i < |a| :: (a + b)[i] in a;
    assert forall i | |a| <= i < |a| + |b| :: (a + b)[i] in b;
    UnshiftCounts(a + b, |a|, index);
  }

  lemma NoneFromEnd(ranges: seq<Range>, k: nat, x: nat)
    requires k <= |ranges| && Contains(ranges[k..], x)
    ensures k < |ranges|
  {
  }

  /** Nothing is behind the last range. */
  lemma NothingBehind(ranges: seq<Range>, k: nat, index: nat)
    requires Apart(ranges) && Found(ranges, k, index) && k == |ranges|
    ensures Set(ranges) == Erased(Set(ranges), {index})
  {
    forall n: nat
      ensures n in Set(ranges) <==> n in Erased(Set(ranges), {index})
    {
      hide Set, Erased;
      assert ranges[..k] == ranges;
      InSet(ranges, n);
      InSet(ranges, n + 1);
      FoundBounds(ranges, k, index, n);
      FoundBounds(ranges, k, index, n + 1);
      InErasedOne(Set(ranges), index, n);
    }
  }

  lemma InErasedOne(x: set<nat>, index: nat, n: nat)
    ensures n in Erased(x, {index}) <==> (n < index && n in x) || (index <= n && n + 1 in x)
  {
    TakeOne(index);
    InErased(x, {index}, if n < index then n else n + 1);
  }

  lemma RoomBelow(ranges: seq<Range>, k: nat, index: nat)
    requires Apart(ranges) && k < |ranges| && Found(ranges, k, index)
    ensures forall s | s in ranges[k + 1..] :: s.first > 0 && s.second > 0
    ensures ranges[k].first < ranges[k].second && index < ranges[k].second
    ensures k > 0 ==> ranges[k - 1].second <= index && ranges[k - 1].first < ranges[k - 1].second < ranges[k].first
    ensures k + 1 < |ranges| ==> ranges[k].second < ranges[k + 1].first
  {
    forall s | s in ranges[k + 1..]
      ensures s.first > 0 && s.second > 0
    {
      var i :| 0 <= i < |ranges[k + 1..]| && ranges[k + 1..][i] == s;
      assert ranges[k].second < ranges[k + 1 + i].first;
    }
  }

  /** An element is in the ranges before j, all below index, in those up to l, or in those behind, all above index. */
  ghost predicate Around(ranges: seq<Range>, j: nat, l: nat, index: nat, n: nat)
    requires j <= l <= |ranges|
  {
    && (n in Set(ranges) <==> Contains(ranges[..j], n) || Contains(ranges[j..l], n) || Contains(ranges[l..], n))
    && (Contains(ranges[..j], n) ==> n < index) && (Contains(ranges[l..], n) ==> index + 1 < n)
  }

  lemma AroundAt(ranges: seq<Range>, j: nat, k: nat, index: nat, n: nat)
    requires Apart(ranges) && j <= k < |ranges| && Found(ranges, k, index)
    ensures Around(ranges, j, k + 1, index, n)
  {
    hide Apart, Slid, Found, Contains, Set;
    InRebuilt(ranges, j, k + 1, [], 0, n);
    FoundBounds(ranges, k, index, n);
    PrefixBound(ranges, j, k, index, n);
  }

  /** An element of the ranges around k before and after they are rebuilt one position lower. */
  lemma BothLowered(ranges: seq<Range>, j: nat, k: nat, r: seq<Range>, index: nat, n: nat)
    requires Apart(ranges) && j <= k < |ranges| && Found(ranges, k, index)
    requires forall s | s in ranges[k + 1..] :: s.first > 0 && s.second > 0
    ensures n in Set(ranges[..j] + r + Slid(ranges[k + 1..], -1))
       <==> Contains(ranges[..j], n) || Contains(r, n) || Contains(ranges[k + 1..], n + 1)
    ensures Around(ranges, j, k + 1, index, n) && Around(ranges, j, k + 1, index, n + 1)
  {
    hide Apart, Slid, Found, Contains, Set;
    AroundAt(ranges, j, k, index, n);
    AroundAt(ranges, j, k, index, n + 1);
    InRebuilt(ranges, j, k + 1, r, -1, n);
  }

  lemma PrefixBound(ranges: seq<Range>, j: nat, k: nat, index: nat, n: nat)
    requires Found(ranges, k, index) && j <= k <= |ranges|
    ensures Contains(ranges[..j], n) ==> n < index
  {
    if i :| 0 <= i < j && ranges[..j][i].first <= n < ranges[..j][i].second {
      assert ranges[i].second <= index;
    }
  }

  /** Ranges that hold what is left of the ones around index, with all others behind them one position lower. */
  lemma Lowered(ranges: seq<Range>, j: nat, k: nat, r: seq<Range>, index: nat)
    requires Apart(ranges) && j <= k < |ranges| && Found(ranges, k, index)
    requires forall s | s in ranges[k + 1..] :: s.first > 0 && s.second > 0
    requires forall n: nat :: Contains(r, n) <==>
               if n < index then Contains(ranges[j..k + 1], n) else Contains(ranges[j..k + 1], n + 1)
    ensures Set(ranges[..j] + r + Slid(ranges[k + 1..], -1)) == Erased(Set(ranges), {index})
  {
    hide Apart, Slid, Found, Contains, Erased, Set;
    forall n: nat
      ensures n in Set(ranges[..j] + r + Slid(ranges[k + 1..], -1)) <==> n in Erased(Set(ranges), {index})
    {
      BothLowered(ranges, j, k, r, index, n);
      InErasedOne(Set(ranges), index, n);
    }
  }

  lemma ErasesIn(ranges: seq<Range>, k: nat, index: nat)
    requires Apart(ranges) && k < |ranges| && Found(ranges, k, index) && ranges[k].first <= index
    requires forall s | s in ranges[k + 1..] :: s.first > 0 && s.second > 0
    ensures var r := ranges[k];
            var kept := if r.first + 1 == r.second then [] else [Range(r.first, r.second - 1)];
            var now := ranges[..k] + kept + Slid(ranges[k + 1..], -1);
            Apart(now) && Set(now) == Erased(Set(ranges), {index})
  {
    hide Apart, Slid, Found, Contains, Erased, Set;
    RoomBelow(ranges, k, index);
    var r := ranges[k];
    var q := Range(r.first, r.second - 1);
    var kept := if r.first + 1 == r.second then [] else [q];
    if kept != [] {
      OneIsApart(q);
    }
    NoneIsApart();
    Rebuilt(ranges, k, k + 1, kept, -1);
    assert ranges[k..k + 1] == [r];
    FewRanges(r, r);
    FewRanges(q, r);
    Lowered(ranges, k, k, kept, index);
  }

  lemma ErasesGap(ranges: seq<Range>, k: nat, index: nat)
    requires Apart(ranges) && 0 < k < |ranges| && Found(ranges, k, index)
    requires ranges[k].first > index && ranges[k - 1].second + 1 == ranges[k].first
    requires forall s | s in ranges[k + 1..] :: s.first > 0 && s.second > 0
    ensures var p, r := ranges[k - 1], ranges[k];
            var now := ranges[..k - 1] + [Range(p.first, p.second + (r.second - r.first))] + Slid(ranges[k + 1..], -1);
            Apart(now) && Set(now) == Erased(Set(ranges), {index})
  {
    hide Apart, Slid, Found, Contains, Erased, Set;
    RoomBelow(ranges, k, index);
    var p, r := ranges[k - 1], ranges[k];
    var q := Range(p.first, p.second + (r.second - r.first));
    ApartAround(ranges, k - 1);
    OneIsApart(q);
    Rebuilt(ranges, k - 1, k + 1, [q], -1);
    assert ranges[k - 1..k + 1] == [p, r];
    FewRanges(p, r);
    FewRanges(q, r);
    Lowered(ranges, k - 1, k, [q], index);
  }

  lemma ErasesBetween(ranges: seq<Range>, k: nat, index: nat)
    requires Apart(ranges) && k < |ranges| && Found(ranges, k, index)
    requires ranges[k].first > index && (k > 0 ==> ranges[k - 1].second + 1 != ranges[k].first)
    requires forall s | s in ranges[k + 1..] :: s.first > 0 && s.second > 0
    ensures var r := ranges[k];
            var now := ranges[..k] + [Range(r.first - 1, r.second - 1)] + Slid(ranges[k + 1..], -1);
            Apart(now) && Set(now) == Erased(Set(ranges), {index})
  {
    hide Apart, Slid, Found, Contains, Erased, Set;
    RoomBelow(ranges, k, index);
    var r, q := ranges[k], Range(ranges[k].first - 1, ranges[k].second - 1);
    OneIsApart(q);
    Rebuilt(ranges, k, k + 1, [q], -1);
    assert ranges[k..k + 1] == [r];
    FewRanges(r, r);
    FewRanges(q, r);
    Lowered(ranges, k, k, [q], index);
  }


  lemma FoundNext(ranges: seq<Range>, at: nat, index: nat)
    requires Apart(ranges) && at < |ranges| && ranges[at].second == index
    ensures Found(ranges, at + 1, index)
  {
  }

  lemma ApartSlid(ranges: seq<Range>, d: int)
    requires Apart(ranges) && forall r | r in ranges :: r.first + d >= 0 && r.second + d >= 0
    ensures Apart(Slid(ranges, d))
  {
  }

  /** Ranges k up to l are replaced and the ranges behind them move. */
  lemma Rebuilt(ranges: seq<Range>, k: nat, l: nat, r: seq<Range>, d: int)
    requires Apart(ranges) && k <= l <= |ranges| && Apart(r)
    requires forall s | s in ranges[l..] :: s.first + d >= 0 && s.second + d >= 0
    requires k > 0 && r != [] ==> ranges[k - 1].second < r[0].first
    requires l < |ranges| && r != [] ==> r[|r| - 1].second < ranges[l].first + d
    requires k > 0 && l < |ranges| && r == [] ==> ranges[k - 1].second < ranges[l].first + d
    ensures Apart(ranges[..k] + r + Slid(ranges[l..], d))
  {
    hide Apart, Precedes, Slid;
    PartsApart(ranges, k);
    PartsApart(ranges, l);
    var a, b := ranges[..k], ranges[l..];
    ApartSlid(b, d);
    JoinApart(a, r, Slid(b, d));
  }

  lemma PartsApart(ranges: seq<Range>, k: nat)
    requires Apart(ranges) && k <= |ranges|
    ensures Apart(ranges[..k]) && Apart(ranges[k..])
  {
  }

  lemma InRebuilt(ranges: seq<Range>, k: nat, l: nat, r: seq<Range>, d: int, n: nat)
    requires Apart(ranges) && k <= l <= |ranges| && forall s | s in ranges[l..] :: s.first + d >= 0 && s.second + d >= 0
    ensures n in Set(ranges[..k] + r + Slid(ranges[l..], d))
       <==> Contains(ranges[..k], n) || Contains(r, n) || (n - d >= 0 && Contains(ranges[l..], n - d))
    ensures n in Set(ranges)
       <==> Contains(ranges[..k], n) || Contains(ranges[k..l], n) || Contains(ranges[l..], n)
  {
    hide Slid, Apart, Contains;
    var a, b := ranges[..k], ranges[l..];
    InSet(a + r + Slid(b, d), n);
    ContainsParts(a + r, Slid(b, d), n);
    ContainsParts(a, r, n);
    ContainsSlid(b, d, n);
    InSet(ranges, n);
    ContainsParts(a + ranges[k..l], b, n);
    ContainsParts(a, ranges[k..l], n);
    assert ranges == a + ranges[k..l] + b;
  }

  /** Indexes in ranges before the one found are smaller, and those in the ones behind it larger. */
  lemma FoundBounds(ranges: seq<Range>, k: nat, index: nat, n: nat)
    requires Apart(ranges) && Found(ranges, k, index)
    ensures Contains(ranges[..k], n) ==> n < index
    ensures k < |ranges| && Contains(ranges[k..], n) ==> ranges[k].first <= n
    ensures k < |ranges| && Contains(ranges[k + 1..], n) ==> index + 1 < n
  {
  }

  lemma InMoved(x: set<nat>, index: nat, count: nat, n: nat)
    ensures n in Shifted(x, Members(Block(index, count)))
       <==> (n < index && n in x) || (index + count <= n && n - count in x)
    ensures n in Inserted(x, Members(Block(index, count)))
       <==> (n < index && n in x) || index <= n < index + count || (index + count <= n && n - count in x)
  {
    var block := Block(index, count);
    InShifted(x, Members(block), n);
    UnshiftCounts(block, if n <= index then 0 else if n < index + count then n - index else count, n);
  }

  lemma BlockGrows(index: nat, i: nat)
    ensures Members(Block(index, i + 1)) == Members(Block(index, i)) + {index + i}
    ensures Members(Block(index, 0)) == {}
  {
  }

  lemma FillStart(x: set<nat>, index: nat, count: nat)
    ensures var p := Members(Block(index, count)); Inserted(x, p) == Shifted(x, p) + p
  {
  }

  lemma Widens(ranges: seq<Range>, k: nat, index: nat, count: nat)
    requires Apart(ranges) && Found(ranges, k, index) && k < |ranges| && ranges[k].first <= index
    ensures var now := ranges[..k] + [Range(ranges[k].first, ranges[k].second + count)] + Slid(ranges[k + 1..], count);
            Apart(now) && Set(now) == Inserted(Set(ranges), Members(Block(index, count)))
  {
    hide Apart, Slid, Found, Contains, Inserted, Shifted, Set, Block;
    var r, r' := ranges[k], Range(ranges[k].first, ranges[k].second + count);
    FoundBehind(ranges, k, index);
    ApartAround(ranges, k);
    ApartNext(ranges, k);
    OneIsApart(r');
    FewRanges(r, r);
    FewRanges(r', r);
    Rebuilt(ranges, k, k + 1, [r'], count);
    forall n
      ensures n in Set(ranges[..k] + [r'] + Slid(ranges[k + 1..], count))
         <==> n in Inserted(Set(ranges), Members(Block(index, count)))
    {
      BothRebuilt(ranges, k, k + 1, [r'], index, count, n);
      InMoved(Set(ranges), index, count, n);
    }
  }

  /** The same of a position and of the one it comes from. */
  lemma BothRebuilt(ranges: seq<Range>, k: nat, l: nat, r: seq<Range>, index: nat, count: nat, n: nat)
    requires Apart(ranges) && Found(ranges, k, index) && k < |ranges| && l == k + 1
    ensures n in Set(ranges[..k] + r + Slid(ranges[l..], count))
       <==> Contains(ranges[..k], n) || Contains(r, n) || (n - count >= 0 && Contains(ranges[l..], n - count))
    ensures ranges[k..l] == [ranges[k]]
    ensures n in Set(ranges) <==> Contains(ranges[..k], n) || Contains([ranges[k]], n) || Contains(ranges[l..], n)
    ensures n >= count ==> (n - count in Set(ranges) <==>
              Contains(ranges[..k], n - count) || Contains([ranges[k]], n - count) || Contains(ranges[l..], n - count))
    ensures Contains(ranges[..k], n) ==> n < index
    ensures Contains(ranges[l..], n) ==> index + 1 < n
    ensures n >= count ==> (Contains(ranges[..k], n - count) ==> n - count < index)
    ensures n >= count ==> (Contains(ranges[l..], n - count) ==> index + 1 < n - count)
  {
    hide Apart, Slid, Found, Contains;
    InRebuilt(ranges, k, l, r, count, n);
    FoundBounds(ranges, k, index, n);
    if n >= count {
      InRebuilt(ranges, k, l, r, count, n - count);
      FoundBounds(ranges, k, index, n - count);
    }
  }

  /** Without a range around index, all ranges from there on move. */
  lemma MovesUp(ranges: seq<Range>, k: nat, index: nat, count: nat)
    requires Apart(ranges) && Found(ranges, k, index) && (k < |ranges| ==> index <= ranges[k].first)
    ensures var now := ranges[..k] + Slid(ranges[k..], count);
            && Apart(now) && Set(now) == Shifted(Set(ranges), Members(Block(index, count)))
            && Found(now, k, index)
  {
    hide Slid;
    SlidApart(ranges, k, count);
    forall n: nat
      ensures n in Set(ranges[..k] + Slid(ranges[k..], count))
         <==> n in Shifted(Set(ranges), Members(Block(index, count)))
    {
      hide Apart, Found, Contains, Inserted, Shifted, Set, Block;
      InSlid(ranges, k, index, count, n);
      InMoved(Set(ranges), index, count, n);
    }
  }

  lemma InSlid(ranges: seq<Range>, k: nat, index: nat, count: nat, n: nat)
    requires Apart(ranges) && k <= |ranges| && Found(ranges, k, index)
    requires k < |ranges| ==> index <= ranges[k].first
    ensures n in Set(ranges[..k] + Slid(ranges[k..], count))
       <==> (n < index && n in Set(ranges)) || (index + count <= n && n - count in Set(ranges))
  {
    hide Apart, Slid, Found, Contains, Set;
    var r: seq<Range> := [];
    assert ranges[..k] + r + Slid(ranges[k..], count) == ranges[..k] + Slid(ranges[k..], count);
    assert ranges[k..k] == r;
    FewRanges(Range(0, 0), Range(0, 0));
    InRebuilt(ranges, k, k, r, count, n);
    FoundBounds(ranges, k, index, n);
    if n >= count {
      InRebuilt(ranges, k, k, r, count, n - count);
      FoundBounds(ranges, k, index, n - count);
    }
  }

  lemma SlidApart(ranges: seq<Range>, k: nat, d: nat)
    requires Apart(ranges) && k <= |ranges|
    ensures Apart(ranges[..k] + Slid(ranges[k..], d))
  {
    var a, b := ranges[..k], ranges[k..];
    assert ranges == a + b;
    ApartParts(a, b);
    ApartSlid(b, d);
    ApartParts(a, Slid(b, d));
  }

  lemma Splits(ranges: seq<Range>, k: nat, index: nat, count: nat)
    requires Apart(ranges) && Found(ranges, k, index) && k < |ranges| && ranges[k].first < index && count > 0
    ensures var now := ranges[..k] + [Range(ranges[k].first, index), Range(index + count, ranges[k].second + count)]
                     + Slid(ranges[k + 1..], count);
            Apart(now) && Set(now) == Shifted(Set(ranges), Members(Block(index, count)))
  {
    hide Apart, Slid, Found, Contains, Inserted, Shifted, Set, Block;
    var r, p := ranges[k], Range(ranges[k].first, index);
    var q := Range(index + count, ranges[k].second + count);
    FoundBehind(ranges, k, index);
    ApartAround(ranges, k);
    ApartNext(ranges, k);
    TwoAreApart(p, q);
    FewRanges(r, r);
    FewRanges(p, q);
    Rebuilt(ranges, k, k + 1, [p, q], count);
    forall n
      ensures n in Set(ranges[..k] + [p, q] + Slid(ranges[k + 1..], count))
         <==> n in Shifted(Set(ranges), Members(Block(index, count)))
    {
      BothRebuilt(ranges, k, k + 1, [p, q], index, count, n);
      InMoved(Set(ranges), index, count, n);
    }
  }

  lemma ApartAround(ranges: seq<Range>, k: nat)
    requires Apart(ranges) && k <= |ranges|
    ensures k < |ranges| ==> ranges[k].first < ranges[k].second
    ensures 0 < k ==> ranges[k - 1].first < ranges[k - 1].second
    ensures 0 < k < |ranges| ==> ranges[k - 1].second < ranges[k].first
  {
  }

  /** The ranges of a end before those of b begin, with a gap. */
  predicate Precedes(a: seq<Range>, b: seq<Range>) {
    forall i, j | 0 <= i < |a| && 0 <= j < |b| :: a[i].second < b[j].first
  }

  lemma ApartParts(a: seq<Range>, b: seq<Range>)
    ensures Apart(a + b) <==> Apart(a) && Apart(b) && Precedes(a, b)
  {
    var c := a + b;
    if Apart(c) {
      assert forall i | 0 <= i < |a| :: a[i] == c[i];
      assert forall i | 0 <= i < |b| :: b[i] == c[|a| + i];
    }
  }

  /** What precedes the first range precedes them all. */
  lemma PrecedesFirst(a: seq<Range>, b: seq<Range>)
    requires Apart(a) && Apart(b)
    requires a != [] && b != [] ==> a[|a| - 1].second < b[0].first
    ensures Precedes(a, b)
  {
    forall i, j | 0 <= i < |a| && 0 <= j < |b|
      ensures a[i].second < b[j].first
    {
      assert a[i].second <= a[|a| - 1].second;
      assert b[0].first <= b[j].first;
    }
  }

  lemma JoinApart(a: seq<Range>, r: seq<Range>, b: seq<Range>)
    requires Apart(a) && Apart(r) && Apart(b)
    requires a != [] && r != [] ==> a[|a| - 1].second < r[0].first
    requires r != [] && b != [] ==> r[|r| - 1].second < b[0].first
    requires r == [] && a != [] && b != [] ==> a[|a| - 1].second < b[0].first
    ensures Apart(a + r + b)
  {
    hide Apart, Precedes;
    PrecedesFirst(a, r);
    ApartParts(a, r);
    var c := a + r;
    assert c != [] ==> c[|c| - 1] == if r == [] then a[|a| - 1] else r[|r| - 1];
    PrecedesFirst(c, b);
    ApartParts(c, b);
  }

  lemma FewRanges(p: Range, q: Range)
    ensures forall x: nat :: !Contains([], x)
    ensures forall x: nat :: Contains([p], x) <==> p.first <= x < p.second
    ensures forall x: nat :: Contains([p, q], x) <==> p.first <= x < p.second || q.first <= x < q.second
  {
    forall x: nat
      ensures Contains([p, q], x) <==> p.first <= x < p.second || q.first <= x < q.second
      ensures Contains([p], x) <==> p.first <= x < p.second
    {
      assert [p][0] == p && [p, q][0] == p && [p, q][1] == q;
    }
  }

  /** Between the ranges of a and b, ranges r are replaced by ranges r' that have other indexes. */
  lemma Replaces(a: seq<Range>, r: seq<Range>, r': seq<Range>, b: seq<Range>, more: set<nat>)
    requires Apart(a + r + b) && Apart(r') && r' != []
    requires (a != [] ==> a[|a| - 1].second < r'[0].first) && (b != [] ==> r'[|r'| - 1].second < b[0].first)
    requires forall x: nat :: Contains(r', x) <==> Contains(r, x) || x in more
    ensures Apart(a + r' + b) && Set(a + r' + b) == Set(a + r + b) + more
  {
    hide Apart, Contains, Precedes;
    ApartParts(a + r, b);
    ApartParts(a, r);
    JoinApart(a, r', b);
    forall x
      ensures x in Set(a + r' + b) <==> x in Set(a + r + b) + more
    {
      InSet(a + r + b, x);
      InSet(a + r' + b, x);
      ContainsParts(a + r, b, x);
      ContainsParts(a, r, x);
      ContainsParts(a + r', b, x);
      ContainsParts(a, r', x);
    }
  }

  lemma AddJoins(ranges: seq<Range>, k: nat, index: nat)
    requires Apart(ranges) && 0 < k < |ranges| && ranges[k - 1].second == index && ranges[k].first == index + 1
    ensures var now := ranges[..k - 1] + [Range(ranges[k - 1].first, ranges[k].second)] + ranges[k + 1..];
            Apart(now) && Set(now) == Set(ranges) + {index}
  {
    hide Contains;
    var a, p, q, b := ranges[..k - 1], ranges[k - 1], ranges[k], ranges[k + 1..];
    assert ranges == a + [p, q] + b;
    FewRanges(p, q);
    FewRanges(Range(p.first, q.second), q);
    Replaces(a, [p, q], [Range(p.first, q.second)], b, {index});
  }

  lemma AddAfter(ranges: seq<Range>, k: nat, index: nat)
    requires Apart(ranges) && 0 < k <= |ranges| && ranges[k - 1].second == index
    requires k < |ranges| ==> index + 1 < ranges[k].first
    ensures var now := ranges[..k - 1] + [Range(ranges[k - 1].first, index + 1)] + ranges[k..];
            Apart(now) && Set(now) == Set(ranges) + {index}
  {
    hide Contains;
    var a, p, b := ranges[..k - 1], ranges[k - 1], ranges[k..];
    assert ranges == a + [p] + b;
    FewRanges(p, p);
    FewRanges(Range(p.first, index + 1), p);
    Replaces(a, [p], [Range(p.first, index + 1)], b, {index});
  }

  lemma AddBefore(ranges: seq<Range>, k: nat, index: nat)
    requires Apart(ranges) && k < |ranges| && ranges[k].first == index + 1
    requires k > 0 ==> ranges[k - 1].second < index
    ensures var now := ranges[..k] + [Range(index, ranges[k].second)] + ranges[k + 1..];
            Apart(now) && Set(now) == Set(ranges) + {index}
  {
    hide Contains;
    var a, p, b := ranges[..k], ranges[k], ranges[k + 1..];
    assert ranges == a + [p] + b;
    FewRanges(p, p);
    FewRanges(Range(index, p.second), p);
    Replaces(a, [p], [Range(index, p.second)], b, {index});
  }

  lemma NoneIsApart()
    ensures Apart([])
  {
  }

  lemma OneIsApart(r: Range)
    requires r.first < r.second
    ensures Apart([r])
  {
  }

  lemma TwoAreApart(p: Range, q: Range)
    requires p.first < p.second < q.first < q.second
    ensures Apart([p, q])
  {
  }

  lemma AddBetween(ranges: seq<Range>, k: nat, index: nat)
    requires Apart(ranges) && k <= |ranges|
    requires (k > 0 ==> ranges[k - 1].second < index) && (k < |ranges| ==> index + 1 < ranges[k].first)
    ensures var now := ranges[..k] + [Range(index, index + 1)] + ranges[k..];
            Apart(now) && Set(now) == Set(ranges) + {index}
  {
    hide Contains, Apart;
    var a, r, b := ranges[..k], Range(index, index + 1), ranges[k..];
    var none: seq<Range> := [];
    assert ranges == a + none + b;
    OneIsApart(r);
    FewRanges(r, r);
    Replaces(a, none, [r], b, {index});
  }
}
