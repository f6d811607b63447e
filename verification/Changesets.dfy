/** The difference between two contents of a collection: which positions were deleted, which were inserted and
    which rows were modified. Rows that moved are deleted and inserted.
 */
module Changesets {
  import opened ListOps
  import opened LongestMatches

  /** The key of the object at each position. */
  type Rows = seq<int>

  // ---- Positions --------------------------------------------------------------------------------

  function Positions(n: nat): (p: set<nat>)
    ensures forall o :: o in p <==> 0 <= o < n
  {
    if n == 0 then {} else Positions(n - 1) + {n - 1}
  }

  /** The members of p below n in ascending order. */
  function Ascend(p: set<nat>, n: nat): seq<nat> {
    if n == 0 then [] else Ascend(p, n - 1) + if n - 1 in p then [n - 1] else []
  }

  lemma {:induction false} AscendSorts(p: set<nat>, n: nat)
    ensures Ascending(Ascend(p, n))
    ensures forall o :: o in Ascend(p, n) <==> o in p && o < n
    decreases n
  {
    if n > 0 {
      AscendSorts(p, n - 1);
      var less := Ascend(p, n - 1);
      assert forall x | 0 <= x < |less| :: less[x] in less;
    }
  }

  lemma {:induction false} AscendSize(p: set<nat>, n: nat)
    requires p <= Positions(n)
    ensures |Ascend(p, n)| == |p|
    decreases n
  {
    if n > 0 {
      var less := p - {n - 1};
      AscendSize(less, n - 1);
      AscendSame(p, less, n - 1);
      assert n - 1 in p ==> |p| == |less| + 1;
      assert n - 1 !in p ==> less == p;
    } else {
      assert p == {};
    }
  }

  lemma {:induction false} AscendSame(p: set<nat>, q: set<nat>, n: nat)
    requires forall o: nat | o < n :: o in p <==> o in q
    ensures Ascend(p, n) == Ascend(q, n)
    decreases n
  {
    if n > 0 {
      AscendSame(p, q, n - 1);
    }
  }

  // ---- Pairing up rows by key -------------------------------------------------------------------

  datatype RowInfo = RowInfo(key: int, tv: nat)

  predicate ByKey(infos: seq<RowInfo>) {
    forall x, y | 0 <= x < y < |infos| :: infos[x].key <= infos[y].key
  }

  /** The rows with their positions, sorted by key. Rows with equal keys may be in any order. */
  ghost predicate InfosOf(infos: seq<RowInfo>, rows: Rows) {
    && ByKey(infos)
    && (forall x | 0 <= x < |infos| :: infos[x].tv < |rows| && infos[x].key == rows[infos[x].tv])
    && (forall x, y | 0 <= x < y < |infos| :: infos[x].tv != infos[y].tv)
    && Seen(infos, |infos|) == Positions(|rows|)
  }

  function Seen(infos: seq<RowInfo>, n: nat): set<nat>
    requires n <= |infos|
  {
    set x | 0 <= x < n :: infos[x].tv
  }

  method BuildRowInfo(rows: Rows) returns (infos: seq<RowInfo>)
    ensures InfosOf(infos, rows)
  {
    infos := [];
    var i := 0;
    while i < |rows|
      invariant 0 <= i <= |rows| && InfosOf(infos, rows[..i])
    {
      var at := 0;
      while at < |infos| && infos[at].key <= rows[i]
        invariant 0 <= at <= |infos| && forall x | 0 <= x < at :: infos[x].key <= rows[i]
      {
        at := at + 1;
      }
      InsertInfo(infos, rows, i, at);
      infos := WithInfo(infos, RowInfo(rows[i], i), at);
      i := i + 1;
    }
    assert rows[..i] == rows;
  }

  function WithInfo(infos: seq<RowInfo>, info: RowInfo, at: nat): (more: seq<RowInfo>)
    requires at <= |infos|
    ensures |more| == |infos| + 1
    ensures forall x | 0 <= x < |more| ::
      more[x] == if x < at then infos[x] else if x == at then info else infos[x - 1]
  {
    infos[..at] + [info] + infos[at..]
  }

  lemma InsertInfo(infos: seq<RowInfo>, rows: Rows, i: nat, at: nat)
    requires i < |rows| && InfosOf(infos, rows[..i]) && at <= |infos|
    requires forall x | 0 <= x < at :: infos[x].key <= rows[i]
    requires at < |infos| ==> rows[i] < infos[at].key
    ensures InfosOf(WithInfo(infos, RowInfo(rows[i], i), at), rows[..i + 1])
  {
    hide WithInfo, ByKey, Seen, Positions;
    var more := WithInfo(infos, RowInfo(rows[i], i), at);
    InsertSeen(infos, RowInfo(rows[i], i), at);
    InsertByKey(infos, RowInfo(rows[i], i), at);
    InsertPlaced(infos, rows, i, at);
    assert Positions(i + 1) == Positions(i) + {i};
  }

  lemma InsertPlaced(infos: seq<RowInfo>, rows: Rows, i: nat, at: nat)
    requires i < |rows| && InfosOf(infos, rows[..i]) && at <= |infos|
    ensures var more := WithInfo(infos, RowInfo(rows[i], i), at);
            && (forall x | 0 <= x < |more| :: more[x].tv < i + 1 && more[x].key == rows[more[x].tv])
            && (forall x, y | 0 <= x < y < |more| :: more[x].tv != more[y].tv)
  {
    hide ByKey, Seen, Positions;
    var more := WithInfo(infos, RowInfo(rows[i], i), at);
    forall x | 0 <= x < |infos|
      ensures infos[x].tv < i && infos[x].key == rows[infos[x].tv]
    {
      assert rows[..i][infos[x].tv] == rows[infos[x].tv];
    }
  }

  lemma InsertByKey(infos: seq<RowInfo>, info: RowInfo, at: nat)
    requires at <= |infos| && ByKey(infos)
    requires forall x | 0 <= x < at :: infos[x].key <= info.key
    requires at < |infos| ==> info.key < infos[at].key
    ensures ByKey(WithInfo(infos, info, at))
  {
  }

  lemma InsertSeen(infos: seq<RowInfo>, info: RowInfo, at: nat)
    requires at <= |infos|
    ensures Seen(WithInfo(infos, info, at), |infos| + 1) == Seen(infos, |infos|) + {info.tv}
  {
    var more := WithInfo(infos, info, at);
    forall x | 0 <= x < |infos|
      ensures infos[x].tv in Seen(more, |more|)
    {
      assert more[if x < at then x else x + 1] == infos[x];
    }
    assert more[at] == info;
  }

  /** Old positions are deleted or paired with a new position that has the same key, new positions are
      inserted or paired, and no key is both deleted and inserted.
   */
  ghost predicate Pairing(prev: Rows, next: Rows, deletions: set<nat>, insertions: set<nat>, from: map<nat, nat>) {
    && from.Keys + insertions == Positions(|next|) && from.Keys !! insertions
    && from.Values + deletions == Positions(|prev|) && from.Values !! deletions
    && Matching(prev, next, from)
    && (forall p, n | p in deletions && n in insertions && p < |prev| && n < |next| :: prev[p] != next[n])
  }

  ghost predicate Matching(prev: Rows, next: Rows, from: map<nat, nat>) {
    && (forall n | n in from :: n < |next| && from[n] < |prev| && prev[from[n]] == next[n])
    && (forall n, n' | n in from && n' in from && n != n' :: from[n] != from[n'])
  }

  lemma SeenStep(infos: seq<RowInfo>, rows: Rows, n: nat)
    requires InfosOf(infos, rows) && n < |infos|
    ensures Seen(infos, n + 1) == Seen(infos, n) + {infos[n].tv} && infos[n].tv !in Seen(infos, n)
  {
  }

  /** The merge of the two sorted lists up to positions i and j. */
  ghost predicate MergedUpTo(prev: Rows, next: Rows, oldInfos: seq<RowInfo>, newInfos: seq<RowInfo>, i: nat, j: nat,
                             deletions: set<nat>, insertions: set<nat>, from: map<nat, nat>)
    requires InfosOf(oldInfos, prev) && InfosOf(newInfos, next) && i <= |oldInfos| && j <= |newInfos|
  {
    && from.Keys + insertions == Seen(newInfos, j) && from.Keys !! insertions
    && from.Values + deletions == Seen(oldInfos, i) && from.Values !! deletions
    && Matching(prev, next, from)
    && (forall p | p in deletions :: p < |prev|) && (forall n | n in insertions :: n < |next|)
    && (forall p, n | p in deletions && n in insertions :: prev[p] != next[n])
    && (forall p, y | p in deletions && j <= y < |newInfos| :: prev[p] < newInfos[y].key)
    && (forall n, x | n in insertions && i <= x < |oldInfos| :: next[n] < oldInfos[x].key)
  }

  method Pair(prev: Rows, next: Rows, oldInfos: seq<RowInfo>, newInfos: seq<RowInfo>)
    returns (deletions: set<nat>, insertions: set<nat>, from: map<nat, nat>)
    requires InfosOf(oldInfos, prev) && InfosOf(newInfos, next)
    ensures Pairing(prev, next, deletions, insertions, from)
  {
    hide InfosOf, MergedUpTo, Pairing;
    deletions, insertions, from := {}, {}, map[];
    var i, j := 0, 0;
    MergeStart(prev, next, oldInfos, newInfos);
    while i < |oldInfos| && j < |newInfos|
      invariant 0 <= i <= |oldInfos| && 0 <= j <= |newInfos|
      invariant MergedUpTo(prev, next, oldInfos, newInfos, i, j, deletions, insertions, from)
      decreases |oldInfos| + |newInfos| - i - j
    {
      var oldRow, newRow := oldInfos[i], newInfos[j];
      if oldRow.key == newRow.key {
        PairStep(prev, next, oldInfos, newInfos, i, j, deletions, insertions, from);
        from := from[newRow.tv := oldRow.tv];
        i, j := i + 1, j + 1;
      } else if oldRow.key < newRow.key {
        DeleteStep(prev, next, oldInfos, newInfos, i, j, deletions, insertions, from);
        deletions := deletions + {oldRow.tv};
        i := i + 1;
      } else {
        InsertStep(prev, next, oldInfos, newInfos, i, j, deletions, insertions, from);
        insertions := insertions + {newRow.tv};
        j := j + 1;
      }
    }
    while i < |oldInfos|
      invariant 0 <= i <= |oldInfos| && (i < |oldInfos| ==> j == |newInfos|) && 0 <= j <= |newInfos|
      invariant MergedUpTo(prev, next, oldInfos, newInfos, i, j, deletions, insertions, from)
    {
      DeleteStep(prev, next, oldInfos, newInfos, i, j, deletions, insertions, from);
      deletions := deletions + {oldInfos[i].tv};
      i := i + 1;
    }
    while j < |newInfos|
      invariant i == |oldInfos| && 0 <= j <= |newInfos|
      invariant MergedUpTo(prev, next, oldInfos, newInfos, i, j, deletions, insertions, from)
    {
      InsertStep(prev, next, oldInfos, newInfos, i, j, deletions, insertions, from);
      insertions := insertions + {newInfos[j].tv};
      j := j + 1;
    }
    MergeEnd(prev, next, oldInfos, newInfos, deletions, insertions, from);
  }

  lemma MergeStart(prev: Rows, next: Rows, oldInfos: seq<RowInfo>, newInfos: seq<RowInfo>)
    requires InfosOf(oldInfos, prev) && InfosOf(newInfos, next)
    ensures MergedUpTo(prev, next, oldInfos, newInfos, 0, 0, {}, {}, map[])
  {
    assert Seen(oldInfos, 0) == {} && Seen(newInfos, 0) == {};
  }

  lemma MergeEnd(prev: Rows, next: Rows, oldInfos: seq<RowInfo>, newInfos: seq<RowInfo>,
                 deletions: set<nat>, insertions: set<nat>, from: map<nat, nat>)
    requires InfosOf(oldInfos, prev) && InfosOf(newInfos, next)
    requires MergedUpTo(prev, next, oldInfos, newInfos, |oldInfos|, |newInfos|, deletions, insertions, from)
    ensures Pairing(prev, next, deletions, insertions, from)
  {
  }

  lemma PairStep(prev: Rows, next: Rows, oldInfos: seq<RowInfo>, newInfos: seq<RowInfo>, i: nat, j: nat,
                 deletions: set<nat>, insertions: set<nat>, from: map<nat, nat>)
    requires InfosOf(oldInfos, prev) && InfosOf(newInfos, next) && i < |oldInfos| && j < |newInfos|
    requires MergedUpTo(prev, next, oldInfos, newInfos, i, j, deletions, insertions, from)
    requires oldInfos[i].key == newInfos[j].key
    ensures MergedUpTo(prev, next, oldInfos, newInfos, i + 1, j + 1, deletions, insertions,
                       from[newInfos[j].tv := oldInfos[i].tv])
  {
    var from' := from[newInfos[j].tv := oldInfos[i].tv];
    SeenStep(oldInfos, prev, i);
    SeenStep(newInfos, next, j);
    assert newInfos[j].tv !in from;
    assert from'.Keys == from.Keys + {newInfos[j].tv};
    assert from'.Values == from.Values + {oldInfos[i].tv} by {
      assert from'[newInfos[j].tv] == oldInfos[i].tv;
      forall p | p in from.Values
        ensures p in from'.Values
      {
        var n :| n in from && from[n] == p;
        assert from'[n] == p;
      }
    }
    forall n, n' | n in from' && n' in from' && n != n'
      ensures from'[n] != from'[n']
    {
      assert n in from ==> from[n] in from.Values;
      assert n' in from ==> from[n'] in from.Values;
    }
  }

  lemma DeleteStep(prev: Rows, next: Rows, oldInfos: seq<RowInfo>, newInfos: seq<RowInfo>, i: nat, j: nat,
                   deletions: set<nat>, insertions: set<nat>, from: map<nat, nat>)
    requires InfosOf(oldInfos, prev) && InfosOf(newInfos, next) && i < |oldInfos| && j <= |newInfos|
    requires MergedUpTo(prev, next, oldInfos, newInfos, i, j, deletions, insertions, from)
    requires j < |newInfos| ==> oldInfos[i].key < newInfos[j].key
    ensures MergedUpTo(prev, next, oldInfos, newInfos, i + 1, j, deletions + {oldInfos[i].tv}, insertions, from)
  {
    SeenStep(oldInfos, prev, i);
  }

  lemma InsertStep(prev: Rows, next: Rows, oldInfos: seq<RowInfo>, newInfos: seq<RowInfo>, i: nat, j: nat,
                   deletions: set<nat>, insertions: set<nat>, from: map<nat, nat>)
    requires InfosOf(oldInfos, prev) && InfosOf(newInfos, next) && i <= |oldInfos| && j < |newInfos|
    requires MergedUpTo(prev, next, oldInfos, newInfos, i, j, deletions, insertions, from)
    requires i < |oldInfos| ==> newInfos[j].key < oldInfos[i].key
    ensures MergedUpTo(prev, next, oldInfos, newInfos, i, j + 1, deletions, insertions + {newInfos[j].tv}, from)
  {
    SeenStep(newInfos, next, j);
  }

  // ---- Deletions and insertions that line the rows up -------------------------------------------

  /** The position row x of the survivors has, or the end of the collection. */
  function PositionOf(rows: seq<Row>, x: nat, n: nat): nat
    requires x <= |rows|
  {
    if x < |rows| then rows[x].tv else n
  }

  /** The rows that survive from a collection, in order, all others being gone. */
  ghost predicate SurvivorsOf(rows: seq<Row>, s: Rows, gone: set<nat>) {
    && (forall x | 0 <= x < |rows| :: rows[x].tv < |s| && rows[x].key == s[rows[x].tv])
    && (forall x, y | 0 <= x < y < |rows| :: rows[x].tv < rows[y].tv)
    && (forall p | 0 <= p < |s| && p !in gone :: exists x :: 0 <= x < |rows| && rows[x].tv == p)
  }

  /** Survivors from x on have not been given up yet. */
  ghost predicate StillThere(rows: seq<Row>, gone: set<nat>, x: nat) {
    forall y | x <= y < |rows| :: rows[y].tv !in gone
  }

  /** What is kept up to the next survivor: survivor x itself unless it is gone too. */
  lemma KeptStep(rows: seq<Row>, s: Rows, gone: set<nat>, x: nat)
    requires SurvivorsOf(rows, s, gone) && x < |rows|
    ensures PositionOf(rows, x, |s|) < PositionOf(rows, x + 1, |s|) <= |s|
    ensures Kept(s, gone, 0, PositionOf(rows, x + 1, |s|))
         == Kept(s, gone, 0, rows[x].tv) + if rows[x].tv in gone then [] else [rows[x].key]
  {
    var p, q := rows[x].tv, PositionOf(rows, x + 1, |s|);
    forall o | 0 <= o < |s| && o !in gone
      ensures o <= p || q <= o
    {
      SurvivorAt(rows, s, gone, x, o);
    }
    KeptNone(s, gone, p + 1, q);
    KeptSplit(s, gone, 0, p + 1, q);
  }

  lemma SurvivorAt(rows: seq<Row>, s: Rows, gone: set<nat>, x: nat, o: nat)
    requires SurvivorsOf(rows, s, gone) && x < |rows| && o < |s| && o !in gone
    ensures o <= rows[x].tv || PositionOf(rows, x + 1, |s|) <= o
    ensures rows[0].tv <= o
  {
    var y :| 0 <= y < |rows| && rows[y].tv == o;
  }

  /** Nothing is kept before the first survivor. */
  lemma KeptStart(rows: seq<Row>, s: Rows, gone: set<nat>)
    requires SurvivorsOf(rows, s, gone)
    ensures PositionOf(rows, 0, |s|) <= |s| && Kept(s, gone, 0, PositionOf(rows, 0, |s|)) == []
  {
    forall o | 0 <= o < |s| && o !in gone
      ensures PositionOf(rows, 0, |s|) <= o
    {
      var y :| 0 <= y < |rows| && rows[y].tv == o;
    }
    KeptNone(s, gone, 0, PositionOf(rows, 0, |s|));
  }

  lemma {:induction false} KeptNone(s: Rows, gone: set<nat>, lo: nat, hi: nat)
    requires lo <= hi <= |s| && forall o | lo <= o < hi :: o in gone
    ensures Kept(s, gone, lo, hi) == []
    decreases hi - lo
  {
    if lo < hi {
      KeptNone(s, gone, lo, hi - 1);
    }
  }

  /** Up to survivors i and j the two collections have the same rows left. */
  ghost predicate Aligned(prev: Rows, next: Rows, a: seq<Row>, b: seq<Row>, i: nat, j: nat,
                          deletions: set<nat>, insertions: set<nat>) {
    && i <= |a| && j <= |b|
    && SurvivorsOf(a, prev, deletions) && SurvivorsOf(b, next, insertions)
    && StillThere(a, deletions, i) && StillThere(b, insertions, j)
    && PositionOf(a, i, |prev|) <= |prev| && PositionOf(b, j, |next|) <= |next|
    && Kept(prev, deletions, 0, PositionOf(a, i, |prev|)) == Kept(next, insertions, 0, PositionOf(b, j, |next|))
  }

  lemma AlignedDelete(prev: Rows, next: Rows, a: seq<Row>, b: seq<Row>, i: nat, j: nat,
                      deletions: set<nat>, insertions: set<nat>)
    requires Aligned(prev, next, a, b, i, j, deletions, insertions) && i < |a|
    ensures Aligned(prev, next, a, b, i + 1, j, deletions + {a[i].tv}, insertions) && a[i].tv < |prev|
  {
    var deletions' := deletions + {a[i].tv};
    KeptSame(prev, deletions, deletions', 0, a[i].tv);
    assert SurvivorsOf(a, prev, deletions');
    KeptStep(a, prev, deletions', i);
  }

  lemma AlignedInsert(prev: Rows, next: Rows, a: seq<Row>, b: seq<Row>, i: nat, j: nat,
                      deletions: set<nat>, insertions: set<nat>)
    requires Aligned(prev, next, a, b, i, j, deletions, insertions) && j < |b|
    ensures Aligned(prev, next, a, b, i, j + 1, deletions, insertions + {b[j].tv}) && b[j].tv < |next|
  {
    var insertions' := insertions + {b[j].tv};
    KeptSame(next, insertions, insertions', 0, b[j].tv);
    assert SurvivorsOf(b, next, insertions');
    KeptStep(b, next, insertions', j);
  }

  lemma {:induction false} AlignedMatch(prev: Rows, next: Rows, a: seq<Row>, b: seq<Row>, i: nat, j: nat, size: nat,
                                        deletions: set<nat>, insertions: set<nat>)
    requires Aligned(prev, next, a, b, i, j, deletions, insertions)
    requires i + size <= |a| && j + size <= |b| && SameKeys(a, b, i, j, size)
    ensures Aligned(prev, next, a, b, i + size, j + size, deletions, insertions)
    decreases size
  {
    hide Aligned, SameKeys;
    if size > 0 {
      SameKeysStep(a, b, i, j, size);
      AlignedOne(prev, next, a, b, i, j, deletions, insertions);
      AlignedMatch(prev, next, a, b, i + 1, j + 1, size - 1, deletions, insertions);
    }
  }

  lemma SameKeysStep(a: seq<Row>, b: seq<Row>, i: nat, j: nat, size: nat)
    requires 0 < size && i + size <= |a| && j + size <= |b| && SameKeys(a, b, i, j, size)
    ensures a[i].key == b[j].key && SameKeys(a, b, i + 1, j + 1, size - 1)
  {
  }

  lemma AlignedOne(prev: Rows, next: Rows, a: seq<Row>, b: seq<Row>, i: nat, j: nat,
                   deletions: set<nat>, insertions: set<nat>)
    requires Aligned(prev, next, a, b, i, j, deletions, insertions)
    requires i < |a| && j < |b| && a[i].key == b[j].key
    ensures Aligned(prev, next, a, b, i + 1, j + 1, deletions, insertions)
  {
    KeptStep(a, prev, deletions, i);
    KeptStep(b, next, insertions, j);
  }

  /** Deleting and inserting all of the changes makes the one collection of the other. */
  predicate Explains(prev: Rows, next: Rows, deletions: set<nat>, insertions: set<nat>) {
    && deletions <= Positions(|prev|) && insertions <= Positions(|next|)
    && Kept(prev, deletions, 0, |prev|) == Kept(next, insertions, 0, |next|)
  }

  /** The positions of survivors lo up to hi. */
  function PositionsOf(rows: seq<Row>, lo: nat, hi: nat): set<nat>
    requires hi <= |rows|
  {
    set x | lo <= x < hi :: rows[x].tv
  }

  lemma PositionsStep(rows: seq<Row>, lo: nat, hi: nat)
    requires lo <= hi < |rows|
    ensures PositionsOf(rows, lo, hi + 1) == PositionsOf(rows, lo, hi) + {rows[hi].tv}
  {
  }

  /** The positions of the survivors of the old content from i on that are in no match, and of the new from j on. */
  function OldUnmatched(a: seq<Row>, b: seq<Row>, i: nat, j: nat, ms: seq<Match>): set<nat>
    requires i <= |a| && j <= |b| && Blocks(a, b, Window(i, |a|, j, |b|), ms)
    decreases |ms|
  {
    if ms == [] then PositionsOf(a, i, |a|)
    else PositionsOf(a, i, ms[0].i) + OldUnmatched(a, b, ms[0].i + ms[0].size, ms[0].j + ms[0].size, ms[1..])
  }

  function NewUnmatched(a: seq<Row>, b: seq<Row>, i: nat, j: nat, ms: seq<Match>): set<nat>
    requires i <= |a| && j <= |b| && Blocks(a, b, Window(i, |a|, j, |b|), ms)
    decreases |ms|
  {
    if ms == [] then PositionsOf(b, j, |b|)
    else PositionsOf(b, j, ms[0].j) + NewUnmatched(a, b, ms[0].i + ms[0].size, ms[0].j + ms[0].size, ms[1..])
  }

  lemma UnmatchedStep(a: seq<Row>, b: seq<Row>, i: nat, j: nat, ms: seq<Match>, d: set<nat>, e: set<nat>)
    requires i <= |a| && j <= |b| && Blocks(a, b, Window(i, |a|, j, |b|), ms) && ms != []
    ensures var i', j' := ms[0].i + ms[0].size, ms[0].j + ms[0].size;
            && (d + PositionsOf(a, i, ms[0].i)) + OldUnmatched(a, b, i', j', ms[1..])
               == d + OldUnmatched(a, b, i, j, ms)
            && (e + PositionsOf(b, j, ms[0].j)) + NewUnmatched(a, b, i', j', ms[1..])
               == e + NewUnmatched(a, b, i, j, ms)
  {
    hide PositionsOf, IsBlock;
  }

  function TotalSize(ms: seq<Match>): nat {
    if ms == [] then 0 else ms[0].size + TotalSize(ms[1..])
  }

  /** How the survivors were lined up: those before the first difference and those in a match stay, exactly the others
      are deleted and inserted.
   */
  ghost predicate LinedUp(a: seq<Row>, b: seq<Row>, first: nat, search: Search, deletions0: set<nat>,
                          insertions0: set<nat>, deletions: set<nat>, insertions: set<nat>) {
    && |a| == |b| && first <= |a| && SameKeys(a, b, 0, 0, first)
    && (first < |a| ==> a[first].key != b[first].key)
    && SearchOf(a, b, Window(first, |a|, first, |b|), search)
    && Blocks(a, b, Window(first, |a|, first, |b|), Matches(search))
    && deletions == deletions0 + OldUnmatched(a, b, first, first, Matches(search))
    && insertions == insertions0 + NewUnmatched(a, b, first, first, Matches(search))
  }

  /** Delete and insert the survivors that no match lines up. */
  method CalculateMovesSorted(ghost prev: Rows, ghost next: Rows, a: seq<Row>, b: seq<Row>, count: (int, int) -> nat,
                              deletions0: set<nat>, insertions0: set<nat>)
    returns (deletions: set<nat>, insertions: set<nat>, ghost first: nat, ghost search: Search)
    requires SurvivorsOf(a, prev, deletions0) && SurvivorsOf(b, next, insertions0) && |a| == |b|
    requires StillThere(a, deletions0, 0) && StillThere(b, insertions0, 0)
    requires deletions0 <= Positions(|prev|) && insertions0 <= Positions(|next|)
    ensures Explains(prev, next, deletions, insertions)
    ensures LinedUp(a, b, first, search, deletions0, insertions0, deletions, insertions)
  {
    hide SurvivorsOf, StillThere, Positions, Explains;
    var firstDifference := 0;
    while firstDifference < |a| && a[firstDifference].key == b[firstDifference].key
      invariant 0 <= firstDifference <= |a|
      invariant SameKeys(a, b, 0, 0, firstDifference)
    {
      firstDifference := firstDifference + 1;
    }
    first := firstDifference;
    if firstDifference == |a| {
      deletions, insertions, search := deletions0, insertions0, Nothing;
      SameOrderExplains(prev, next, a, b, deletions, insertions);
      return;
    }
    var w := Window(firstDifference, |a|, firstDifference, |b|);
    var matches;
    matches, search := FindLongestMatches(a, b, w, count);
    AlignedStart(prev, next, a, b, deletions0, insertions0);
    AlignedMatch(prev, next, a, b, 0, 0, firstDifference, deletions0, insertions0);
    deletions, insertions := LineUp(prev, next, a, b, firstDifference, matches, deletions0, insertions0);
  }

  lemma AlignedStart(prev: Rows, next: Rows, a: seq<Row>, b: seq<Row>, deletions: set<nat>, insertions: set<nat>)
    requires SurvivorsOf(a, prev, deletions) && SurvivorsOf(b, next, insertions)
    requires StillThere(a, deletions, 0) && StillThere(b, insertions, 0)
    ensures Aligned(prev, next, a, b, 0, 0, deletions, insertions)
  {
    KeptStart(a, prev, deletions);
    KeptStart(b, next, insertions);
  }

  /** Delete and insert the survivors between the matches. */
  method LineUp(ghost prev: Rows, ghost next: Rows, a: seq<Row>, b: seq<Row>, start: nat, matches: seq<Match>,
                deletions0: set<nat>, insertions0: set<nat>)
    returns (deletions: set<nat>, insertions: set<nat>)
    requires start <= |a| && start <= |b| && Aligned(prev, next, a, b, start, start, deletions0, insertions0)
    requires Blocks(a, b, Window(start, |a|, start, |b|), matches)
    requires deletions0 <= Positions(|prev|) && insertions0 <= Positions(|next|)
    ensures Explains(prev, next, deletions, insertions)
    ensures deletions == deletions0 + OldUnmatched(a, b, start, start, matches)
    ensures insertions == insertions0 + NewUnmatched(a, b, start, start, matches)
  {
    hide Aligned, Positions, OldUnmatched, NewUnmatched, PositionsOf, Explains, SameKeys;
    deletions, insertions := deletions0, insertions0;
    var i: nat, j: nat := start, start;
    var x := 0;
    ghost var rest := matches;
    while x < |matches|
      invariant 0 <= x <= |matches|
      invariant i <= |a| && j <= |b| && Blocks(a, b, Window(i, |a|, j, |b|), rest) && rest == matches[x..]
      invariant Aligned(prev, next, a, b, i, j, deletions, insertions)
      invariant deletions <= Positions(|prev|) && insertions <= Positions(|next|)
      invariant deletions + OldUnmatched(a, b, i, j, rest) == deletions0 + OldUnmatched(a, b, start, start, matches)
      invariant insertions + NewUnmatched(a, b, i, j, rest) == insertions0 + NewUnmatched(a, b, start, start, matches)
    {
      var m := matches[x];
      assert rest[0] == m;
      UnmatchedStep(a, b, i, j, rest, deletions, insertions);
      deletions, insertions := SkipTo(prev, next, a, b, i, j, m.i, m.j, deletions, insertions);
      AlignedMatch(prev, next, a, b, m.i, m.j, m.size, deletions, insertions);
      i, j := m.i + m.size, m.j + m.size;
      rest := rest[1..];
      x := x + 1;
    }
    UnmatchedLast(a, b, i, j);
    deletions, insertions := SkipTo(prev, next, a, b, i, j, |a|, |b|, deletions, insertions);
    AlignedEnd(prev, next, a, b, deletions, insertions);
  }

  lemma UnmatchedLast(a: seq<Row>, b: seq<Row>, i: nat, j: nat)
    requires i <= |a| && j <= |b|
    ensures OldUnmatched(a, b, i, j, []) == PositionsOf(a, i, |a|)
    ensures NewUnmatched(a, b, i, j, []) == PositionsOf(b, j, |b|)
  {
  }

  lemma AlignedEnd(prev: Rows, next: Rows, a: seq<Row>, b: seq<Row>, deletions: set<nat>, insertions: set<nat>)
    requires Aligned(prev, next, a, b, |a|, |b|, deletions, insertions)
    requires deletions <= Positions(|prev|) && insertions <= Positions(|next|)
    ensures Explains(prev, next, deletions, insertions)
  {
  }

  /** Delete and insert the survivors before the next match. */
  method SkipTo(ghost prev: Rows, ghost next: Rows, a: seq<Row>, b: seq<Row>, i0: nat, j0: nat, i1: nat, j1: nat,
                deletions0: set<nat>, insertions0: set<nat>)
    returns (deletions: set<nat>, insertions: set<nat>)
    requires i0 <= i1 <= |a| && j0 <= j1 <= |b|
    requires Aligned(prev, next, a, b, i0, j0, deletions0, insertions0)
    requires deletions0 <= Positions(|prev|) && insertions0 <= Positions(|next|)
    ensures Aligned(prev, next, a, b, i1, j1, deletions, insertions)
    ensures deletions == deletions0 + PositionsOf(a, i0, i1) && deletions <= Positions(|prev|)
    ensures insertions == insertions0 + PositionsOf(b, j0, j1) && insertions <= Positions(|next|)
  {
    hide Aligned, Positions;
    deletions, insertions := deletions0, insertions0;
    var i: nat, j: nat := i0, j0;
    while i < i1
      invariant i0 <= i <= i1 && Aligned(prev, next, a, b, i, j, deletions, insertions)
      invariant deletions == deletions0 + PositionsOf(a, i0, i) && deletions <= Positions(|prev|)
    {
      AlignedDelete(prev, next, a, b, i, j, deletions, insertions);
      PositionsStep(a, i0, i);
      deletions := deletions + {a[i].tv};
      i := i + 1;
    }
    while j < j1
      invariant j0 <= j <= j1 && Aligned(prev, next, a, b, i, j, deletions, insertions)
      invariant insertions == insertions0 + PositionsOf(b, j0, j) && insertions <= Positions(|next|)
    {
      AlignedInsert(prev, next, a, b, i, j, deletions, insertions);
      PositionsStep(b, j0, j);
      insertions := insertions + {b[j].tv};
      j := j + 1;
    }
  }

  // ---- The whole calculation --------------------------------------------------------------------

  function RowsAt(s: Rows, at: seq<nat>): (rows: seq<Row>)
    requires InRange(at, |s|)
    ensures |rows| == |at|
    ensures forall x | 0 <= x < |at| :: rows[x].tv == at[x] && at[x] in at && rows[x].key == s[at[x]]
  {
    seq(|at|, x requires 0 <= x < |at| => assert at[x] in at; Row(s[at[x]], at[x]))
  }

  lemma SurvivorsAt(s: Rows, there: set<nat>, gone: set<nat>)
    requires there + gone == Positions(|s|) && there !! gone
    ensures InRange(Ascend(there, |s|), |s|)
    ensures var rows := RowsAt(s, Ascend(there, |s|));
            && SurvivorsOf(rows, s, gone) && StillThere(rows, gone, 0) && |rows| == |there|
            && forall x | 0 <= x < |rows| :: rows[x].tv in there
  {
    hide Ascend, Positions, SurvivorsOf, StillThere;
    AscendSorts(there, |s|);
    AscendSize(there, |s|);
    forall p | 0 <= p < |s|
      ensures p in there <==> p !in gone
    {
      assert p in there + gone;
    }
    RowsSurvive(s, Ascend(there, |s|), gone);
  }

  lemma RowsSurvive(s: Rows, at: seq<nat>, gone: set<nat>)
    requires Ascending(at) && InRange(at, |s|)
    requires forall p | 0 <= p < |s| :: p in at <==> p !in gone
    ensures SurvivorsOf(RowsAt(s, at), s, gone) && StillThere(RowsAt(s, at), gone, 0)
  {
    var rows := RowsAt(s, at);
    forall p | 0 <= p < |s| && p !in gone
      ensures exists x :: 0 <= x < |rows| && rows[x].tv == p
    {
      var x :| 0 <= x < |at| && at[x] == p;
      assert rows[x].tv == p;
    }
  }

  lemma {:induction false} AsManyValues(prev: Rows, next: Rows, from: map<nat, nat>)
    requires Matching(prev, next, from)
    ensures |from.Keys| == |from.Values|
    decreases |from.Keys|
  {
    if from == map[] {
      assert from.Values == {};
    } else {
      var n :| n in from;
      var less := from - {n};
      AsManyValues(prev, next, less);
      assert from.Keys == less.Keys + {n};
      ValuesWithout(prev, next, from, n);
    }
  }

  lemma ValuesWithout(prev: Rows, next: Rows, from: map<nat, nat>, n: nat)
    requires Matching(prev, next, from) && n in from
    ensures from.Values == (from - {n}).Values + {from[n]} && from[n] !in (from - {n}).Values
  {
    var less := from - {n};
    forall p | p in from.Values
      ensures p in less.Values + {from[n]}
    {
      var n' :| n' in from && from[n'] == p;
      assert n' != n ==> n' in less && less[n'] == p;
    }
    forall p | p in less.Values
      ensures p in from.Values && p != from[n]
    {
      var n' :| n' in less && less[n'] == p;
      assert from[n'] == p && n' != n;
    }
  }

  predicate NoDuplicates(rows: Rows) {
    forall x, y | 0 <= x < y < |rows| :: rows[x] != rows[y]
  }

  predicate TableOrder(rows: Rows) {
    forall x, y | 0 <= x < y < |rows| :: rows[x] < rows[y]
  }

  /** Without duplicates a pairing deletes exactly the rows that are not there any more, and inserts exactly
      those that were not there before.
   */
  lemma PairingIsExact(prev: Rows, next: Rows, deletions: set<nat>, insertions: set<nat>, from: map<nat, nat>)
    requires Pairing(prev, next, deletions, insertions, from) && NoDuplicates(prev) && NoDuplicates(next)
    ensures forall p | 0 <= p < |prev| :: p in deletions <==> prev[p] !in next
    ensures forall n | 0 <= n < |next| :: n in insertions <==> next[n] !in prev
  {
    forall p, n | 0 <= p < |prev| && 0 <= n < |next| && prev[p] == next[n]
      ensures p !in deletions && n !in insertions
    {
      assert n in from.Keys + insertions && p in from.Values + deletions;
      assert n in from ==> prev[from[n]] == prev[p];
    }
    forall p | 0 <= p < |prev|
      ensures p in deletions <==> prev[p] !in next
    {
      assert p in from.Values + deletions;
      if p !in deletions {
        var n :| n in from && from[n] == p;
        assert next[n] == prev[p];
      }
    }
    forall n | 0 <= n < |next|
      ensures n in insertions <==> next[n] !in prev
    {
      assert n in from.Keys + insertions;
    }
  }

  /** In table order the rows that stay need not be lined up: the pairing explains the change by itself. */
  lemma TableOrderExplains(prev: Rows, next: Rows, deletions: set<nat>, insertions: set<nat>, from: map<nat, nat>)
    requires Pairing(prev, next, deletions, insertions, from) && TableOrder(prev) && TableOrder(next)
    ensures Explains(prev, next, deletions, insertions)
  {
    hide SurvivorsOf, StillThere, Explains, Ascend, At, SameKeys, TableOrder;
    SurvivorsAt(prev, from.Values, deletions);
    SurvivorsAt(next, from.Keys, insertions);
    OrderedSurvivors(prev, next, from);
    var oldAt, newAt := Ascend(from.Values, |prev|), Ascend(from.Keys, |next|);
    SameOrder(prev, next, oldAt, newAt);
    SameOrderExplains(prev, next, RowsAt(prev, oldAt), RowsAt(next, newAt), deletions, insertions);
  }

  lemma SameOrder(prev: Rows, next: Rows, oldAt: seq<nat>, newAt: seq<nat>)
    requires InRange(oldAt, |prev|) && InRange(newAt, |next|) && At(prev, oldAt) == At(next, newAt)
    ensures |oldAt| == |newAt| && SameKeys(RowsAt(prev, oldAt), RowsAt(next, newAt), 0, 0, |oldAt|)
  {
    forall x | 0 <= x < |oldAt|
      ensures RowsAt(prev, oldAt)[x].key == RowsAt(next, newAt)[x].key
    {
      assert At(prev, oldAt)[x] == At(next, newAt)[x];
    }
  }

  lemma SameOrderExplains(prev: Rows, next: Rows, a: seq<Row>, b: seq<Row>, deletions: set<nat>, insertions: set<nat>)
    requires SurvivorsOf(a, prev, deletions) && SurvivorsOf(b, next, insertions)
    requires StillThere(a, deletions, 0) && StillThere(b, insertions, 0)
    requires deletions <= Positions(|prev|) && insertions <= Positions(|next|)
    requires |a| == |b| && SameKeys(a, b, 0, 0, |a|)
    ensures Explains(prev, next, deletions, insertions)
  {
    AlignedStart(prev, next, a, b, deletions, insertions);
    AlignedMatch(prev, next, a, b, 0, 0, |a|, deletions, insertions);
    AlignedEnd(prev, next, a, b, deletions, insertions);
  }

  /** Paired rows that are in table order before and after are in the same order. */
  lemma OrderedSurvivors(prev: Rows, next: Rows, from: map<nat, nat>)
    requires Matching(prev, next, from) && TableOrder(prev) && TableOrder(next)
    requires from.Keys <= Positions(|next|) && from.Values <= Positions(|prev|)
    ensures InRange(Ascend(from.Values, |prev|), |prev|) && InRange(Ascend(from.Keys, |next|), |next|)
    ensures At(prev, Ascend(from.Values, |prev|)) == At(next, Ascend(from.Keys, |next|))
  {
    hide Ascend, At, TableOrder;
    AscendInOrder(prev, from.Values);
    AscendInOrder(next, from.Keys);
    var xs, ys := At(prev, Ascend(from.Values, |prev|)), At(next, Ascend(from.Keys, |next|));
    forall k
      ensures k in xs <==> k in ys
    {
      assert (exists p :: p in from.Values && prev[p] == k) <==> (exists n :: n in from && next[n] == k);
    }
    OneOrder(xs, ys);
  }

  lemma AscendInOrder(s: Rows, p: set<nat>)
    requires TableOrder(s) && p <= Positions(|s|)
    ensures InRange(Ascend(p, |s|), |s|)
    ensures TableOrder(At(s, Ascend(p, |s|)))
    ensures forall k :: k in At(s, Ascend(p, |s|)) <==> exists o :: o in p && s[o] == k
  {
    AscendSorts(p, |s|);
    var at := Ascend(p, |s|);
    var xs := At(s, at);
    forall o | o in p
      ensures s[o] in xs
    {
      assert o in at;
      var x :| 0 <= x < |at| && at[x] == o;
      assert xs[x] == s[o];
    }
    forall k | k in xs
      ensures exists o :: o in p && s[o] == k
    {
      var x :| 0 <= x < |xs| && xs[x] == k;
      assert at[x] in at && s[at[x]] == k;
    }
    assert forall x | 0 <= x < |at| :: at[x] in at && xs[x] == s[at[x]];
  }

  /** There is one way to put a set of keys in order. */
  lemma {:induction false} OneOrder(xs: Rows, ys: Rows)
    requires TableOrder(xs) && TableOrder(ys)
    requires forall k :: k in xs <==> k in ys
    ensures xs == ys
    decreases |xs|
  {
    hide TableOrder;
    if xs != [] {
      var k := xs[0];
      assert k in xs && k in ys;
    }
    if ys != [] {
      var k := ys[0];
      assert k in ys && k in xs;
    }
    if xs != [] && ys != [] {
      var m, n := |xs| - 1, |ys| - 1;
      LastIsMost(xs);
      LastIsMost(ys);
      assert xs[m] in xs && ys[n] in ys;
      assert xs[m] == ys[n];
      forall k
        ensures k in xs[..m] <==> k in ys[..n]
      {
        assert k in xs[..m] <==> k in xs && k != xs[m];
        assert k in ys[..n] <==> k in ys && k != ys[n];
      }
      OneOrder(xs[..m], ys[..n]);
      assert xs == xs[..m] + [xs[m]] && ys == ys[..n] + [ys[n]];
    }
  }

  lemma LastIsMost(xs: Rows)
    requires TableOrder(xs) && xs != []
    ensures forall k | k in xs :: k <= xs[|xs| - 1]
    ensures forall k :: k in xs[..|xs| - 1] <==> k in xs && k != xs[|xs| - 1]
    ensures TableOrder(xs[..|xs| - 1])
  {
    var m := |xs| - 1;
    forall k | k in xs
      ensures k <= xs[m] && (k != xs[m] ==> k in xs[..m])
    {
      var x :| 0 <= x < |xs| && xs[x] == k;
      assert x < m ==> xs[..m][x] == k;
    }
    forall k | k in xs[..m]
      ensures k in xs && k != xs[m]
    {
      var x :| 0 <= x < m && xs[..m][x] == k;
      assert xs[x] == k;
    }
  }

  /** The rows of s that are also in t, in the order of s. */
  function Staying(s: Rows, t: Rows): Rows {
    if s == [] then [] else Staying(s[..|s| - 1], t) + if s[|s| - 1] in t then [s[|s| - 1]] else []
  }

  lemma {:induction false} StayingAt(s: Rows, t: Rows, p: set<nat>, n: nat)
    requires n <= |s| && forall o | 0 <= o < n :: o in p <==> s[o] in t
    ensures InRange(Ascend(p, n), |s|) && At(s, Ascend(p, n)) == Staying(s[..n], t)
    decreases n
  {
    AscendSorts(p, n);
    if n > 0 {
      StayingAt(s, t, p, n - 1);
      assert s[..n][..n - 1] == s[..n - 1];
    }
  }

  // ---- How many rows stay -----------------------------------------------------------------------

  lemma {:induction false} PositionsSize(n: nat)
    ensures |Positions(n)| == n
    decreases n
  {
    if n > 0 {
      PositionsSize(n - 1);
    }
  }

  lemma UnionSize(x: set<nat>, y: set<nat>)
    requires x !! y
    ensures |x + y| == |x| + |y|
  {
  }

  predicate Climbing(rows: seq<Row>) {
    forall x, y | 0 <= x < y < |rows| :: rows[x].tv < rows[y].tv
  }

  lemma {:induction false} PositionsOfSize(rows: seq<Row>, lo: nat, hi: nat)
    requires lo <= hi <= |rows| && Climbing(rows)
    ensures |PositionsOf(rows, lo, hi)| == hi - lo
    decreases hi - lo
  {
    if lo < hi {
      PositionsOfSize(rows, lo, hi - 1);
      PositionsStep(rows, lo, hi - 1);
      assert rows[hi - 1].tv !in PositionsOf(rows, lo, hi - 1);
      UnionSize(PositionsOf(rows, lo, hi - 1), {rows[hi - 1].tv});
    } else {
      assert PositionsOf(rows, lo, hi) == {};
    }
  }

  lemma PositionsApart(rows: seq<Row>, lo: nat, mid: nat, mid': nat)
    requires lo <= mid <= mid' <= |rows| && Climbing(rows)
    ensures PositionsOf(rows, lo, mid) !! PositionsOf(rows, mid', |rows|)
    ensures PositionsOf(rows, lo, mid) + PositionsOf(rows, mid', |rows|) <= PositionsOf(rows, lo, |rows|)
  {
  }

  /** All but the matched survivors are given up. */
  lemma {:induction false} UnmatchedSize(a: seq<Row>, b: seq<Row>, i: nat, j: nat, ms: seq<Match>)
    requires i <= |a| && j <= |b| && Climbing(a) && Blocks(a, b, Window(i, |a|, j, |b|), ms)
    ensures |OldUnmatched(a, b, i, j, ms)| + TotalSize(ms) == |a| - i
    ensures OldUnmatched(a, b, i, j, ms) <= PositionsOf(a, i, |a|)
    decreases |ms|
  {
    hide PositionsOf, SameKeys, Climbing;
    if ms == [] {
      PositionsOfSize(a, i, |a|);
    } else {
      var m := ms[0];
      var skipped, later := PositionsOf(a, i, m.i), OldUnmatched(a, b, m.i + m.size, m.j + m.size, ms[1..]);
      PositionsOfSize(a, i, m.i);
      UnmatchedSize(a, b, m.i + m.size, m.j + m.size, ms[1..]);
      PositionsApart(a, i, m.i, m.i + m.size);
      UnionSize(skipped, later);
    }
  }

  lemma {:induction false} TotalCovers(ms: seq<Match>, size: nat)
    requires HasSize(ms, size)
    ensures size <= TotalSize(ms)
    decreases |ms|
  {
    var x :| 0 <= x < |ms| && size <= ms[x].size;
    if x > 0 {
      assert ms[1..][x - 1] == ms[x];
      TotalCovers(ms[1..], size);
    }
  }

  /** At least as many survivors stay as any common block of the survivors is long, and the others are given up. */
  lemma LinedUpKeepsLongest(a: seq<Row>, b: seq<Row>, first: nat, search: Search, deletions0: set<nat>,
                            insertions0: set<nat>, deletions: set<nat>, insertions: set<nat>, i: nat, j: nat, size: nat)
    requires LinedUp(a, b, first, search, deletions0, insertions0, deletions, insertions)
    requires Climbing(a) && StillThere(a, deletions0, 0)
    requires i + size <= |a| && j + size <= |b| && SameKeys(a, b, i, j, size)
    ensures |deletions| + size <= |deletions0| + |a|
  {
    hide SearchOf, Blocks;
    var ms := Matches(search);
    var w := Window(first, |a|, first, |b|);
    var given := OldUnmatched(a, b, first, first, ms);
    UnmatchedSize(a, b, first, first, ms);
    assert deletions0 !! given;
    UnionSize(deletions0, given);
    var least := if i < j then i else j;
    var cut := if least < first then first - least else 0;
    if cut < size {
      var block := Match(i + cut, j + cut, size - cut);
      BlockTail(a, b, w, i, j, size, cut);
      SearchHasLongest(a, b, w, search, block);
      TotalCovers(ms, block.size);
    }
  }

  lemma BlockTail(a: seq<Row>, b: seq<Row>, w: Window, i: nat, j: nat, size: nat, cut: nat)
    requires WindowOf(w, a, b) && w.end1 == |a| && w.end2 == |b|
    requires i + size <= |a| && j + size <= |b| && SameKeys(a, b, i, j, size) && cut < size
    requires w.begin1 <= i + cut && w.begin2 <= j + cut
    ensures IsBlock(a, b, w, Match(i + cut, j + cut, size - cut))
  {
  }

  /** If the survivors are in line already, none is given up. */
  lemma LinedUpKeepsAll(a: seq<Row>, b: seq<Row>, first: nat, search: Search, deletions0: set<nat>,
                        insertions0: set<nat>, deletions: set<nat>, insertions: set<nat>)
    requires LinedUp(a, b, first, search, deletions0, insertions0, deletions, insertions)
    requires SameKeys(a, b, 0, 0, |a|)
    ensures deletions == deletions0 && insertions == insertions0
  {
    assert first == |a|;
    assert search == Nothing;
    assert PositionsOf(a, first, |a|) == {} && PositionsOf(b, first, |b|) == {};
  }

  /** A run of the same rows in both, side by side. */
  predicate CommonRun(xs: Rows, ys: Rows, i: nat, j: nat, size: nat) {
    && i + size <= |xs| && j + size <= |ys|
    && xs[i..i + size] == ys[j..j + size]
  }

  /** As many rows stay as any run that the rows in both contents have in common is long. */
  ghost predicate KeepsLongestRun(prev: Rows, next: Rows, deletions: set<nat>) {
    forall i, j, size | CommonRun(Staying(prev, next), Staying(next, prev), i, j, size) :: |deletions| + size <= |prev|
  }

  /** The survivors of a pairing are the staying rows, in order. */
  lemma SurvivorsStay(prev: Rows, next: Rows, deletions: set<nat>, insertions: set<nat>, from: map<nat, nat>)
    requires Pairing(prev, next, deletions, insertions, from) && NoDuplicates(prev) && NoDuplicates(next)
    ensures var oldAt, newAt := Ascend(from.Values, |prev|), Ascend(from.Keys, |next|);
            && InRange(oldAt, |prev|) && InRange(newAt, |next|)
            && At(prev, oldAt) == Staying(prev, next) && At(next, newAt) == Staying(next, prev)
  {
    PairingIsExact(prev, next, deletions, insertions, from);
    forall p | 0 <= p < |prev|
      ensures p in from.Values <==> prev[p] in next
    {
      assert p in from.Values + deletions;
    }
    forall n | 0 <= n < |next|
      ensures n in from.Keys <==> next[n] in prev
    {
      assert n in from.Keys + insertions;
    }
    StayingAt(prev, next, from.Values, |prev|);
    StayingAt(next, prev, from.Keys, |next|);
    assert prev[..|prev|] == prev && next[..|next|] == next;
  }

  lemma RunIsSameKeys(prev: Rows, next: Rows, oldAt: seq<nat>, newAt: seq<nat>, i: nat, j: nat, size: nat)
    requires InRange(oldAt, |prev|) && InRange(newAt, |next|)
    requires CommonRun(At(prev, oldAt), At(next, newAt), i, j, size)
    ensures SameKeys(RowsAt(prev, oldAt), RowsAt(next, newAt), i, j, size)
  {
    forall x | i <= x < i + size
      ensures RowsAt(prev, oldAt)[x].key == RowsAt(next, newAt)[x - i + j].key
    {
      assert At(prev, oldAt)[i..i + size][x - i] == At(next, newAt)[j..j + size][x - i];
    }
  }

  lemma CalculationKeepsLongest(prev: Rows, next: Rows, deletions0: set<nat>, insertions0: set<nat>,
                                from: map<nat, nat>, first: nat, search: Search, deletions: set<nat>,
                                insertions: set<nat>)
    requires Pairing(prev, next, deletions0, insertions0, from) && NoDuplicates(prev) && NoDuplicates(next)
    requires InRange(Ascend(from.Values, |prev|), |prev|) && InRange(Ascend(from.Keys, |next|), |next|)
    requires LinedUp(RowsAt(prev, Ascend(from.Values, |prev|)), RowsAt(next, Ascend(from.Keys, |next|)), first, search,
                     deletions0, insertions0, deletions, insertions)
    ensures KeepsLongestRun(prev, next, deletions)
    ensures Staying(prev, next) == Staying(next, prev) ==> deletions == deletions0 && insertions == insertions0
  {
    hide LinedUp, Ascend, SurvivorsOf, StillThere, Staying, At, NoDuplicates;
    var oldAt, newAt := Ascend(from.Values, |prev|), Ascend(from.Keys, |next|);
    var a, b := RowsAt(prev, oldAt), RowsAt(next, newAt);
    SurvivorsAt(prev, from.Values, deletions0);
    SurvivorsStay(prev, next, deletions0, insertions0, from);
    SurvivorsClimb(a, prev, deletions0);
    PositionsSize(|prev|);
    UnionSize(from.Values, deletions0);
    forall i, j, size | CommonRun(Staying(prev, next), Staying(next, prev), i, j, size)
      ensures |deletions| + size <= |prev|
    {
      RunIsSameKeys(prev, next, oldAt, newAt, i, j, size);
      AtSize(prev, oldAt);
      AtSize(next, newAt);
      LinedUpKeepsLongest(a, b, first, search, deletions0, insertions0, deletions, insertions, i, j, size);
    }
    if Staying(prev, next) == Staying(next, prev) {
      SameOrder(prev, next, oldAt, newAt);
      LinedUpKeepsAll(a, b, first, search, deletions0, insertions0, deletions, insertions);
    }
  }

  lemma AtSize(s: Rows, at: seq<nat>)
    requires InRange(at, |s|)
    ensures |At(s, at)| == |RowsAt(s, at)| == |at|
  {
  }

  lemma SurvivorsClimb(rows: seq<Row>, s: Rows, gone: set<nat>)
    requires SurvivorsOf(rows, s, gone)
    ensures Climbing(rows)
  {
  }

  // ---- The result -------------------------------------------------------------------------------

  /** What is reported of a change. Deleting and inserting makes the one content of the other, unless the caller vouches
      wrongly that both are in table order. With that promise, or if the rows that stay have kept their order, exactly
      the rows that are gone are deleted and exactly the new ones inserted. Otherwise as many rows stay as the longest
      run they have in common. Exactly the changed rows that stay are modified.
   */
  ghost predicate Report(prev: Rows, next: Rows, changed: int -> bool, inTableOrder: bool,
                         deletions: set<nat>, insertions: set<nat>, modifications: set<nat>) {
    && (!inTableOrder || (TableOrder(prev) && TableOrder(next)) ==> Explains(prev, next, deletions, insertions))
    && (inTableOrder ==> NothingMoves(prev, next, deletions, insertions))
    && (forall n | n in modifications :: n < |next| && next[n] in prev && changed(next[n]))
    && (NoDuplicates(prev) && NoDuplicates(next) ==>
          && KeepsLongestRun(prev, next, deletions)
          && (inTableOrder || Staying(prev, next) == Staying(next, prev) ==>
                && (forall p | 0 <= p < |prev| :: p in deletions <==> prev[p] !in next)
                && (forall n | 0 <= n < |next| :: n in insertions <==> next[n] !in prev))
          && (forall n | 0 <= n < |next| && next[n] in prev && changed(next[n]) :: n in modifications))
  }

  /** The pairing a report started from, and how its survivors were lined up unless rows are in table order. */
  datatype Course = Course(deletions: set<nat>, insertions: set<nat>, from: map<nat, nat>, first: nat, search: Search)

  /** What the changes are for any contents, those with duplicates included: exactly the changed rows that are paired
      are modified, and what is deleted and inserted is what the pairing leaves over, with exactly the survivors that no
      match of the search lines up.
   */
  ghost predicate Follows(prev: Rows, next: Rows, changed: int -> bool, inTableOrder: bool, course: Course,
                          deletions: set<nat>, insertions: set<nat>, modifications: set<nat>) {
    && Pairing(prev, next, course.deletions, course.insertions, course.from)
    && ModifiesChanged(next, course.from, changed, modifications)
    && if inTableOrder then deletions == course.deletions && insertions == course.insertions
       else
         var oldAt, newAt := Ascend(course.from.Values, |prev|), Ascend(course.from.Keys, |next|);
         && InRange(oldAt, |prev|) && InRange(newAt, |next|)
         && LinedUp(RowsAt(prev, oldAt), RowsAt(next, newAt), course.first, course.search, course.deletions,
                    course.insertions, deletions, insertions)
  }

  /** The changes from one content of a collection to the next, from the rows sorted by key. */
  method CalculateFrom(prev: Rows, next: Rows, oldInfos: seq<RowInfo>, newInfos: seq<RowInfo>, changed: int -> bool,
                       count: (set<nat>, int, int) -> nat, inTableOrder: bool)
    returns (deletions: set<nat>, insertions: set<nat>, modifications: set<nat>, ghost course: Course)
    requires InfosOf(oldInfos, prev) && InfosOf(newInfos, next)
    ensures Report(prev, next, changed, inTableOrder, deletions, insertions, modifications)
    ensures Follows(prev, next, changed, inTableOrder, course, deletions, insertions, modifications)
  {
    hide Pairing, LinedUp, SurvivorsOf, StillThere, TableOrder, Explains, Ascend, Matching, Report, NoDuplicates;
    hide Positions, ModifiesChanged;
    var from;
    deletions, insertions, from := Pair(prev, next, oldInfos, newInfos);
    ghost var deletions0, insertions0 := deletions, insertions;
    PairingParts(prev, next, deletions, insertions, from);
    SurvivorsAt(prev, from.Values, deletions);
    SurvivorsAt(next, from.Keys, insertions);
    AsManyValues(prev, next, from);
    var b := RowsAt(next, Ascend(from.Keys, |next|));
    modifications := Modified(b, changed);
    ModifiedStay(prev, next, deletions, insertions, from, changed, modifications);
    if inTableOrder {
      course := Course(deletions, insertions, from, 0, Nothing);
      ReportPaired(prev, next, deletions, insertions, from, changed, modifications);
    } else {
      var a := RowsAt(prev, Ascend(from.Values, |prev|));
      var known := modifications;
      ghost var first, search;
      deletions, insertions, first, search :=
        CalculateMovesSorted(prev, next, a, b, (lo, hi) => count(known, lo, hi), deletions, insertions);
      course := Course(deletions0, insertions0, from, first, search);
      ReportLinedUp(prev, next, deletions0, insertions0, from, first, search, changed, deletions, insertions,
                    modifications);
    }
  }

  lemma PairingParts(prev: Rows, next: Rows, deletions: set<nat>, insertions: set<nat>, from: map<nat, nat>)
    requires Pairing(prev, next, deletions, insertions, from)
    ensures from.Keys + insertions == Positions(|next|) && from.Keys !! insertions
    ensures from.Values + deletions == Positions(|prev|) && from.Values !! deletions
    ensures deletions <= Positions(|prev|) && insertions <= Positions(|next|) && Matching(prev, next, from)
  {
  }

  ghost predicate ModifiesChanged(next: Rows, from: map<nat, nat>, changed: int -> bool, modifications: set<nat>) {
    forall n :: n in modifications <==> n in from && n < |next| && changed(next[n])
  }

  lemma ReportPaired(prev: Rows, next: Rows, deletions: set<nat>, insertions: set<nat>, from: map<nat, nat>,
                     changed: int -> bool, modifications: set<nat>)
    requires Pairing(prev, next, deletions, insertions, from)
    requires ModifiesChanged(next, from, changed, modifications)
    ensures Report(prev, next, changed, true, deletions, insertions, modifications)
  {
    hide KeepsLongestRun, TableOrder, Explains, NoDuplicates, Staying;
    if NoDuplicates(prev) && NoDuplicates(next) {
      PairingIsExact(prev, next, deletions, insertions, from);
      PairingKeepsLongest(prev, next, deletions, insertions, from);
    }
    if TableOrder(prev) && TableOrder(next) {
      TableOrderExplains(prev, next, deletions, insertions, from);
    }
    AllStayModified(prev, next, deletions, insertions, from, changed, modifications);
  }

  lemma ReportLinedUp(prev: Rows, next: Rows, deletions0: set<nat>, insertions0: set<nat>, from: map<nat, nat>,
                      first: nat, search: Search, changed: int -> bool,
                      deletions: set<nat>, insertions: set<nat>, modifications: set<nat>)
    requires Pairing(prev, next, deletions0, insertions0, from)
    requires ModifiesChanged(next, from, changed, modifications)
    requires InRange(Ascend(from.Values, |prev|), |prev|) && InRange(Ascend(from.Keys, |next|), |next|)
    requires LinedUp(RowsAt(prev, Ascend(from.Values, |prev|)), RowsAt(next, Ascend(from.Keys, |next|)), first, search,
                     deletions0, insertions0, deletions, insertions)
    requires Explains(prev, next, deletions, insertions)
    ensures Report(prev, next, changed, false, deletions, insertions, modifications)
  {
    hide KeepsLongestRun, TableOrder, Explains, NoDuplicates, Staying, LinedUp, Ascend;
    if NoDuplicates(prev) && NoDuplicates(next) {
      PairingIsExact(prev, next, deletions0, insertions0, from);
      CalculationKeepsLongest(prev, next, deletions0, insertions0, from, first, search, deletions, insertions);
    }
    AllStayModified(prev, next, deletions0, insertions0, from, changed, modifications);
  }

  /** The modified rows are changed rows that stay, and without duplicates all of them. */
  lemma AllStayModified(prev: Rows, next: Rows, deletions: set<nat>, insertions: set<nat>, from: map<nat, nat>,
                        changed: int -> bool, modifications: set<nat>)
    requires Pairing(prev, next, deletions, insertions, from)
    requires ModifiesChanged(next, from, changed, modifications)
    ensures forall n | n in modifications :: n < |next| && next[n] in prev && changed(next[n])
    ensures NoDuplicates(prev) && NoDuplicates(next) ==>
              forall n | 0 <= n < |next| && next[n] in prev && changed(next[n]) :: n in modifications
  {
    if NoDuplicates(prev) && NoDuplicates(next) {
      PairingIsExact(prev, next, deletions, insertions, from);
      forall n | 0 <= n < |next| && next[n] in prev && changed(next[n])
        ensures n in modifications
      {
        assert n in from.Keys + insertions;
      }
    }
    forall n | n in modifications
      ensures next[n] in prev
    {
      assert prev[from[n]] == next[n];
    }
  }

  /** A pairing keeps every row that stays. */
  lemma PairingKeepsLongest(prev: Rows, next: Rows, deletions: set<nat>, insertions: set<nat>, from: map<nat, nat>)
    requires Pairing(prev, next, deletions, insertions, from) && NoDuplicates(prev) && NoDuplicates(next)
    ensures KeepsLongestRun(prev, next, deletions)
  {
    hide Ascend, Staying, At, NoDuplicates;
    SurvivorsStay(prev, next, deletions, insertions, from);
    AscendSize(from.Values, |prev|);
    PositionsSize(|prev|);
    AtSize(prev, Ascend(from.Values, |prev|));
    UnionSize(from.Values, deletions);
  }

  lemma ModifiedStay(prev: Rows, next: Rows, deletions: set<nat>, insertions: set<nat>, from: map<nat, nat>,
                     changed: int -> bool, modifications: set<nat>)
    requires Pairing(prev, next, deletions, insertions, from)
    requires InRange(Ascend(from.Keys, |next|), |next|)
    requires forall n :: n in modifications <==>
               exists x :: 0 <= x < |Ascend(from.Keys, |next|)|
                 && RowsAt(next, Ascend(from.Keys, |next|))[x].tv == n
                 && changed(RowsAt(next, Ascend(from.Keys, |next|))[x].key)
    ensures ModifiesChanged(next, from, changed, modifications)
  {
    var at := Ascend(from.Keys, |next|);
    AscendSorts(from.Keys, |next|);
    forall n | n in from && n < |next| && changed(next[n])
      ensures n in modifications
    {
      assert n in at;
      var x :| 0 <= x < |at| && at[x] == n;
      assert RowsAt(next, at)[x].tv == n;
    }
    forall n | n in modifications
      ensures n in from && n < |next| && changed(next[n])
    {
      var x :| 0 <= x < |at| && RowsAt(next, at)[x].tv == n && changed(RowsAt(next, at)[x].key);
      assert at[x] in at;
    }
  }

  /** The same from unsorted contents. */
  method Calculate(prev: Rows, next: Rows, changed: int -> bool, count: (set<nat>, int, int) -> nat, inTableOrder: bool)
    returns (deletions: set<nat>, insertions: set<nat>, modifications: set<nat>, ghost course: Course)
    ensures Report(prev, next, changed, inTableOrder, deletions, insertions, modifications)
    ensures Follows(prev, next, changed, inTableOrder, course, deletions, insertions, modifications)
  {
    var oldInfos := BuildRowInfo(prev);
    var newInfos := BuildRowInfo(next);
    deletions, insertions, modifications, course :=
      CalculateFrom(prev, next, oldInfos, newInfos, changed, count, inTableOrder);
  }

  ghost predicate NothingMoves(prev: Rows, next: Rows, deletions: set<nat>, insertions: set<nat>) {
    forall p, n | p in deletions && n in insertions && p < |prev| && n < |next| :: prev[p] != next[n]
  }

  method Modified(rows: seq<Row>, changed: int -> bool) returns (modifications: set<nat>)
    ensures forall n :: n in modifications <==> exists x :: 0 <= x < |rows| && rows[x].tv == n && changed(rows[x].key)
  {
    modifications := {};
    var x := 0;
    while x < |rows|
      invariant 0 <= x <= |rows|
      invariant forall n :: n in modifications <==> exists y :: 0 <= y < x && rows[y].tv == n && changed(rows[y].key)
    {
      if changed(rows[x].key) {
        modifications := modifications + {rows[x].tv};
      }
      x := x + 1;
    }
  }

  /** Position i is filled: by inserting row i, or by the kept row that stands there. */
  lemma ApplyStep(next: Rows, insertions: set<nat>, i: nat)
    requires i < |next|
    ensures next[..i + 1] + Kept(next, insertions, i + 1, |next|) ==
              var items := next[..i] + Kept(next, insertions, i, |next|);
              if i in insertions then items[..i] + [next[i]] + items[i..] else items
  {
    KeptSplit(next, insertions, i, i + 1, |next|);
    var rest := Kept(next, insertions, i + 1, |next|);
    assert Kept(next, insertions, i, i + 1) == if i in insertions then [] else [next[i]] by {
      assert Kept(next, insertions, i, i) == [];
    }
    assert next[..i + 1] == next[..i] + [next[i]];
    assert next[..i] + ([next[i]] + rest) == next[..i] + [next[i]] + rest;
  }

  /** Carry out the changes on a list: the deletions from the last one down, then the insertions upwards. */
  method Apply(list: RealmList<int>, next: Rows, deletions: set<nat>, insertions: set<nat>)
    requires Explains(list.items, next, deletions, insertions)
    modifies list
    ensures list.items == next
  {
    ghost var prev := list.items;
    var offsets := Ascend(deletions, |list.items|);
    AscendSorts(deletions, |list.items|);
    KeptSame(prev, deletions, Members(offsets), 0, |prev|);
    var ok := list.RemoveAtOffsets(offsets);
    var i := 0;
    while i < |next|
      invariant 0 <= i <= |next|
      invariant list.items == next[..i] + Kept(next, insertions, i, |next|)
    {
      ApplyStep(next, insertions, i);
      if i in insertions {
        ok := list.Insert(next[i], i);
      }
      i := i + 1;
    }
    assert next[..i] == next;
  }
}
