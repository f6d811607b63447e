/** Cursors over a vector of ranges stored in chunks, and over the single indexes of an index set. */
module ChunkedRanges {

  import opened Store

  /** A half-open range of indexes. */
  datatype Range = Range(first: nat, second: nat)

  type Chunks = seq<seq<Range>>

  predicate NoEmptyChunk(chunks: Chunks) {
    forall c | c in chunks :: c != []
  }

  /** All ranges in order. */
  function Flatten(chunks: Chunks): seq<Range> {
    if chunks == [] then [] else Flatten(chunks[..|chunks| - 1]) + chunks[|chunks| - 1]
  }

  /** The number of ranges in the chunks before the given one. */
  function Before(chunks: Chunks, outer: nat): nat
    requires outer <= |chunks|
  {
    |Flatten(chunks[..outer])|
  }

  lemma {:induction false} FlattenPrefix(chunks: Chunks, outer: nat)
    requires outer <= |chunks|
    ensures Flatten(chunks[..outer]) <= Flatten(chunks)
    decreases |chunks|
  {
    if outer == |chunks| {
      assert chunks[..outer] == chunks;
    } else {
      var most := chunks[..|chunks| - 1];
      FlattenPrefix(most, outer);
      assert most[..outer] == chunks[..outer];
    }
  }

  lemma FlattenOneMore(chunks: Chunks, outer: nat)
    requires outer < |chunks|
    ensures Flatten(chunks[..outer + 1]) == Flatten(chunks[..outer]) + chunks[outer]
  {
    assert chunks[..outer + 1][..outer] == chunks[..outer];
  }

  /** Range j of a chunk is the range at that distance from the start of the chunk. */
  lemma FlattenAt(chunks: Chunks, outer: nat, j: nat)
    requires outer < |chunks| && j < |chunks[outer]|
    ensures Before(chunks, outer) + j < |Flatten(chunks)|
    ensures Flatten(chunks)[Before(chunks, outer) + j] == chunks[outer][j]
  {
    FlattenOneMore(chunks, outer);
    FlattenPrefix(chunks, outer + 1);
    assert Flatten(chunks)[Before(chunks, outer) + j] == Flatten(chunks[..outer + 1])[Before(chunks, outer) + j];
  }

  lemma {:induction false} BeforeGrows(chunks: Chunks, o1: nat, o2: nat)
    requires NoEmptyChunk(chunks) && o1 < o2 <= |chunks|
    ensures Before(chunks, o1) + |chunks[o1]| <= Before(chunks, o2)
    decreases o2 - o1
  {
    if o1 + 1 == o2 {
      FlattenOneMore(chunks, o1);
    } else {
      FlattenOneMore(chunks, o2 - 1);
      BeforeGrows(chunks, o1, o2 - 1);
    }
  }

  /** A cursor: a chunk, and a position in it unless it is past the last chunk. */
  class Cursor {
    const chunks: Chunks
    var outer: nat
    var inner: Option<nat>

    ghost predicate Valid()
      reads this
    {
      && NoEmptyChunk(chunks)
      && outer <= |chunks|
      && (outer < |chunks| ==> inner.Some? && inner.value < |chunks[outer]|)
      && (outer == |chunks| ==> inner == None)
    }

    /** How many ranges lie before the cursor. */
    ghost function Position(): (n: nat)
      reads this
      requires Valid()
      ensures n <= |Flatten(chunks)|
      ensures n == |Flatten(chunks)| <==> outer == |chunks|
    {
      if outer == |chunks| then
        assert chunks[..outer] == chunks;
        Before(chunks, outer)
      else
        FlattenAt(chunks, outer, inner.value);
        Before(chunks, outer) + inner.value
    }

    constructor Begin(chunks: Chunks)
      requires NoEmptyChunk(chunks)
      ensures this.chunks == chunks && Valid() && Position() == 0
    {
      this.chunks := chunks;
      outer := 0;
      inner := if chunks == [] then None else Some(0);
      new;
      assert chunks != [] ==> chunks[0] in chunks;
      assert chunks[..0] == [];
    }

    constructor End(chunks: Chunks)
      requires NoEmptyChunk(chunks)
      ensures this.chunks == chunks && Valid() && Position() == |Flatten(chunks)|
    {
      this.chunks := chunks;
      outer := |chunks|;
      inner := None;
    }

    method Get() returns (r: Range)
      requires Valid() && outer < |chunks|
      ensures r == Flatten(chunks)[Position()]
    {
      FlattenAt(chunks, outer, inner.value);
      r := chunks[outer][inner.value];
    }

    /** Two cursors into the same vector are equal exactly when they are at the same position. */
    method Equals(that: Cursor) returns (r: bool)
      requires Valid() && that.Valid() && that.chunks == chunks
      ensures r <==> Position() == that.Position()
    {
      if outer < that.outer {
        BeforeGrows(chunks, outer, that.outer);
      } else if that.outer < outer {
        BeforeGrows(chunks, that.outer, outer);
      }
      r := outer == that.outer && inner == that.inner;
    }

    /** Go to the first range of the next chunk. */
    method NextChunk()
      requires Valid() && outer < |chunks|
      modifies this
      ensures Valid() && outer == old(outer) + 1
      ensures Position() == Before(chunks, old(outer)) + |chunks[old(outer)]|
    {
      FlattenOneMore(chunks, outer);
      outer := outer + 1;
      inner := if outer != |chunks| then Some(0) else None;
      assert outer < |chunks| ==> chunks[outer] in chunks;
    }

    method Next()
      requires Valid() && Position() < |Flatten(chunks)|
      modifies this
      ensures Valid() && Position() == old(Position()) + 1
    {
      var i := inner.value + 1;
      if i == |chunks[outer]| {
        NextChunk();
      } else {
        inner := Some(i);
      }
    }

    method Prev()
      requires Valid() && Position() > 0
      modifies this
      ensures Valid() && Position() == old(Position()) - 1
    {
      if inner == None || inner == Some(0) {
        assert outer > 0 by {
          assert chunks[..0] == [];
        }
        FlattenOneMore(chunks, outer - 1);
        outer := outer - 1;
        assert chunks[outer] in chunks;
        inner := Some(|chunks[outer]| - 1);
      } else {
        inner := Some(inner.value - 1);
      }
    }
  }

  /** Stepping from begin to end visits every range once, in order. */
  method Walk(chunks: Chunks) returns (visited: seq<Range>)
    requires NoEmptyChunk(chunks)
    ensures visited == Flatten(chunks)
  {
    hide Flatten, NoEmptyChunk;
    var it := new Cursor.Begin(chunks);
    var end := new Cursor.End(chunks);
    visited := [];
    var done := it.Equals(end);
    while !done
      invariant it.Valid() && end.Valid() && it != end && it.chunks == end.chunks == chunks
      invariant end.Position() == |Flatten(chunks)|
      invariant visited == Flatten(chunks)[..it.Position()]
      invariant done <==> it.Position() == |Flatten(chunks)|
      decreases |Flatten(chunks)| - it.Position(), !done
    {
      var r := it.Get();
      visited := visited + [r];
      it.Next();
      done := it.Equals(end);
    }
  }

  /** Stepping back from end to begin visits them in reverse. */
  method WalkBack(chunks: Chunks) returns (visited: seq<Range>)
    requires NoEmptyChunk(chunks)
    ensures |visited| == |Flatten(chunks)|
    ensures forall i | 0 <= i < |visited| :: visited[i] == Flatten(chunks)[|visited| - 1 - i]
  {
    hide Flatten, NoEmptyChunk;
    var it := new Cursor.End(chunks);
    var begin := new Cursor.Begin(chunks);
    ghost var n := |Flatten(chunks)|;
    visited := [];
    var done := it.Equals(begin);
    while !done
      invariant it.Valid() && begin.Valid() && it != begin && it.chunks == begin.chunks == chunks
      invariant begin.Position() == 0
      invariant |visited| == n - it.Position()
      invariant forall i | 0 <= i < |visited| :: visited[i] == Flatten(chunks)[n - 1 - i]
      invariant done <==> it.Position() == 0
      decreases it.Position(), !done
    {
      it.Prev();
      var r := it.Get();
      visited := visited + [r];
      done := it.Equals(begin);
    }
  }

  // ---- Single indexes ---------------------------------------------------------------------------

  predicate NoEmptyRange(ranges: seq<Range>) {
    forall i | 0 <= i < |ranges| :: ranges[i].first < ranges[i].second
  }

  /** Ranges are not empty and follow each other without overlap. */
  predicate Sorted(ranges: seq<Range>) {
    && NoEmptyRange(ranges)
    && (forall i, j | 0 <= i < j < |ranges| :: ranges[i].second <= ranges[j].first)
  }

  function Length(r: Range): nat {
    if r.first < r.second then r.second - r.first else 0
  }

  function Span(r: Range): (xs: seq<nat>)
    ensures |xs| == Length(r)
    ensures forall i | 0 <= i < |xs| :: xs[i] == r.first + i
  {
    seq(Length(r), i requires 0 <= i => r.first + i)
  }

  /** The indexes in the ranges, one by one. */
  function Indexes(ranges: seq<Range>): seq<nat> {
    if ranges == [] then [] else Indexes(ranges[..|ranges| - 1]) + Span(ranges[|ranges| - 1])
  }

  function TotalLength(ranges: seq<Range>): nat {
    if ranges == [] then 0 else TotalLength(ranges[..|ranges| - 1]) + Length(ranges[|ranges| - 1])
  }

  ghost predicate Contains(ranges: seq<Range>, x: nat) {
    exists i :: 0 <= i < |ranges| && ranges[i].first <= x < ranges[i].second
  }

  lemma {:induction false} IndexesContained(ranges: seq<Range>, x: nat)
    ensures x in Indexes(ranges) <==> Contains(ranges, x)
    decreases |ranges|
  {
    if ranges != [] {
      var less, r := ranges[..|ranges| - 1], ranges[|ranges| - 1];
      IndexesContained(less, x);
      SpanContains(r, x);
      ContainsSplit(ranges, x);
      assert x in Indexes(less) + Span(r) <==> x in Indexes(less) || x in Span(r);
    }
  }

  lemma SpanContains(r: Range, x: nat)
    ensures x in Span(r) <==> r.first <= x < r.second
  {
    if r.first <= x < r.second {
      assert Span(r)[x - r.first] == x;
    }
  }

  lemma ContainsSplit(ranges: seq<Range>, x: nat)
    requires ranges != []
    ensures var n := |ranges| - 1;
            Contains(ranges, x) <==> Contains(ranges[..n], x) || ranges[n].first <= x < ranges[n].second
  {
    var n := |ranges| - 1;
    var less := ranges[..n];
    if Contains(less, x) {
      var i :| 0 <= i < n && less[i].first <= x < less[i].second;
      assert ranges[i].first <= x < ranges[i].second;
    }
    if Contains(ranges, x) {
      var i :| 0 <= i < |ranges| && ranges[i].first <= x < ranges[i].second;
      assert i < n ==> less[i].first <= x < less[i].second;
    }
  }

  predicate Increasing(xs: seq<nat>) {
    forall i, j | 0 <= i < j < |xs| :: xs[i] < xs[j]
  }

  lemma {:induction false} IndexesAscend(ranges: seq<Range>)
    requires Sorted(ranges)
    ensures |Indexes(ranges)| == TotalLength(ranges) && Increasing(Indexes(ranges))
    decreases |ranges|
  {
    if ranges != [] {
      var n := |ranges| - 1;
      var xs := Indexes(ranges[..n]);
      IndexesAscend(ranges[..n]);
      forall i | 0 <= i < |xs|
        ensures xs[i] < ranges[n].first
      {
        assert xs[i] in xs;
        IndexesContained(ranges[..n], xs[i]);
        var k :| 0 <= k < n && ranges[..n][k].first <= xs[i] < ranges[..n][k].second;
        assert ranges[k].second <= ranges[n].first;
      }
    }
  }

  /** The indexes are the members of the set, each once and in ascending order, and as many as the ranges
      are long in all.
   */
  lemma IndexesAreMembers(ranges: seq<Range>)
    requires Sorted(ranges)
    ensures |Indexes(ranges)| == TotalLength(ranges) && Increasing(Indexes(ranges))
    ensures forall x: nat :: x in Indexes(ranges) <==> Contains(ranges, x)
  {
    IndexesAscend(ranges);
    forall x: nat
      ensures x in Indexes(ranges) <==> Contains(ranges, x)
    {
      IndexesContained(ranges, x);
    }
  }

  lemma {:induction false} IndexesPrefix(ranges: seq<Range>, n: nat)
    requires n <= |ranges|
    ensures Indexes(ranges[..n]) <= Indexes(ranges)
    decreases |ranges|
  {
    if n == |ranges| {
      assert ranges[..n] == ranges;
    } else {
      var most := ranges[..|ranges| - 1];
      IndexesPrefix(most, n);
      assert most[..n] == ranges[..n];
    }
  }

  /** How many indexes lie before an offset into a range, or before the end. */
  function IndexesBefore(ranges: seq<Range>, n: nat, offset: nat): nat
    requires n <= |ranges|
  {
    |Indexes(ranges[..n])| + offset
  }

  lemma IndexesAt(ranges: seq<Range>, n: nat, offset: nat)
    requires n < |ranges| && offset < Length(ranges[n])
    ensures IndexesBefore(ranges, n, offset) < |Indexes(ranges)|
    ensures Indexes(ranges)[IndexesBefore(ranges, n, offset)] == ranges[n].first + offset
    ensures IndexesBefore(ranges, n + 1, 0) == IndexesBefore(ranges, n, Length(ranges[n]))
  {
    var upTo := ranges[..n + 1];
    assert upTo[..n] == ranges[..n];
    IndexesPrefix(ranges, n + 1);
    assert Indexes(upTo) == Indexes(ranges[..n]) + Span(ranges[n]);
    assert Indexes(ranges)[IndexesBefore(ranges, n, offset)] == Indexes(upTo)[IndexesBefore(ranges, n, offset)];
  }

  lemma IndexesAll(ranges: seq<Range>)
    ensures IndexesBefore(ranges, |ranges|, 0) == |Indexes(ranges)|
  {
    assert ranges[..|ranges|] == ranges;
  }

  /** A cursor over single indexes: a range cursor and an offset into its range. */
  class IndexCursor {
    const it: Cursor
    var offset: nat

    ghost predicate Valid()
      reads this, it
    {
      && it.Valid() && NoEmptyRange(Flatten(it.chunks))
      && (it.Position() < |Flatten(it.chunks)| ==> offset < Length(Flatten(it.chunks)[it.Position()]))
      && (it.Position() == |Flatten(it.chunks)| ==> offset == 0)
    }

    /** How many indexes lie before the cursor. */
    ghost function Count(): (n: nat)
      reads this, it
      requires Valid()
      ensures n <= |Indexes(Flatten(it.chunks))|
      ensures n == |Indexes(Flatten(it.chunks))| <==> it.Position() == |Flatten(it.chunks)|
    {
      var ranges := Flatten(it.chunks);
      if it.Position() == |ranges| then
        IndexesAll(ranges);
        IndexesBefore(ranges, it.Position(), 0)
      else
        IndexesAt(ranges, it.Position(), offset);
        IndexesBefore(ranges, it.Position(), offset)
    }

    constructor (it: Cursor)
      requires it.Valid() && NoEmptyRange(Flatten(it.chunks))
      ensures Valid() && this.it == it && (it.Position() == 0 ==> Count() == 0)
    {
      this.it := it;
      offset := 0;
      new;
      assert Flatten(it.chunks)[..0] == [];
    }

    method Get() returns (x: nat)
      requires Valid() && it.Position() < |Flatten(it.chunks)|
      ensures Count() < |Indexes(Flatten(it.chunks))| && x == Indexes(Flatten(it.chunks))[Count()]
    {
      var r := it.Get();
      IndexesAt(Flatten(it.chunks), it.Position(), offset);
      x := r.first + offset;
    }

    /** Whether the range cursor equals the end cursor, a chunk past the last and no range. */
    method AtEnd() returns (r: bool)
      requires Valid()
      ensures r <==> it.Position() == |Flatten(it.chunks)|
    {
      r := it.outer == |it.chunks| && it.inner == None;
    }

    method Next()
      requires Valid() && it.Position() < |Flatten(it.chunks)|
      modifies this, it
      ensures Valid() && Count() == old(Count()) + 1
    {
      IndexesAt(Flatten(it.chunks), it.Position(), offset);
      offset := offset + 1;
      var r := it.Get();
      if r.first + offset == r.second {
        it.Next();
        offset := 0;
      }
    }

    /** Dereference and step, as the postfix increment is used. */
    method Take() returns (x: nat)
      requires Valid() && it.Position() < |Flatten(it.chunks)|
      modifies this, it
      ensures Valid() && Count() == old(Count()) + 1
      ensures old(Count()) < |Indexes(Flatten(it.chunks))| && x == Indexes(Flatten(it.chunks))[old(Count())]
    {
      x := Get();
      Next();
    }
  }

  /** Stepping through the indexes of a set yields each of them once, in order. */
  method WalkIndexes(chunks: Chunks) returns (visited: seq<nat>)
    requires NoEmptyChunk(chunks) && NoEmptyRange(Flatten(chunks))
    ensures visited == Indexes(Flatten(chunks))
  {
    ghost var all := Indexes(Flatten(chunks));
    var begin := new Cursor.Begin(chunks);
    var index := new IndexCursor(begin);
    visited := [];
    var done := index.AtEnd();
    while !done
      invariant index.Valid() && index.it == begin && begin.chunks == chunks
      invariant |visited| == index.Count() && visited <= all
      invariant done <==> begin.Position() == |Flatten(chunks)|
      decreases |all| - |visited|
    {
      var x := index.Take();
      visited := visited + [x];
      done := index.AtEnd();
    }
  }
}
