/** The search for matches between two lists of rows: the longest common block, then the parts left and right of it.
 */
module LongestMatches {

  // ---- Matching blocks --------------------------------------------------------------------------

  /** A position in each of the two lists of surviving rows. */
  datatype Row = Row(key: int, tv: nat)

  datatype Match = Match(i: nat, j: nat, size: nat)

  /** A part of both lists. */
  datatype Window = Window(begin1: nat, end1: nat, begin2: nat, end2: nat)

  predicate WindowOf(w: Window, a: seq<Row>, b: seq<Row>) {
    w.begin1 <= w.end1 <= |a| && w.begin2 <= w.end2 <= |b|
  }

  /** The two lists have the same keys over the whole length of the match, inside the window. */
  predicate IsBlock(a: seq<Row>, b: seq<Row>, w: Window, m: Match)
    requires WindowOf(w, a, b)
  {
    && w.begin1 <= m.i && m.i + m.size <= w.end1
    && w.begin2 <= m.j && m.j + m.size <= w.end2
    && SameKeys(a, b, m.i, m.j, m.size)
  }

  predicate SameKeys(a: seq<Row>, b: seq<Row>, i: nat, j: nat, size: nat)
    requires i + size <= |a| && j + size <= |b|
  {
    forall x | i <= x < i + size :: a[x].key == b[x - i + j].key
  }

  /** The length of the longest block that ends with a[i] and b[j]. */
  function RunAt(a: seq<Row>, b: seq<Row>, w: Window, i: nat, j: nat): nat
    requires WindowOf(w, a, b) && w.begin1 <= i < w.end1 && w.begin2 <= j < w.end2
    decreases i
  {
    if a[i].key != b[j].key then 0
    else if i > w.begin1 && j > w.begin2 then RunAt(a, b, w, i - 1, j - 1) + 1
    else 1
  }

  lemma {:induction false} RunIsBlock(a: seq<Row>, b: seq<Row>, w: Window, i: nat, j: nat)
    requires WindowOf(w, a, b) && w.begin1 <= i < w.end1 && w.begin2 <= j < w.end2
    ensures var size := RunAt(a, b, w, i, j);
            size <= i + 1 && size <= j + 1 && IsBlock(a, b, w, Match(i + 1 - size, j + 1 - size, size))
    decreases i
  {
    if a[i].key == b[j].key && i > w.begin1 && j > w.begin2 {
      RunIsBlock(a, b, w, i - 1, j - 1);
    }
  }

  lemma {:induction false} BlockIsInRun(a: seq<Row>, b: seq<Row>, w: Window, m: Match)
    requires WindowOf(w, a, b) && IsBlock(a, b, w, m) && m.size > 0
    ensures m.size <= RunAt(a, b, w, m.i + m.size - 1, m.j + m.size - 1)
    decreases m.size
  {
    assert a[m.i + m.size - 1].key == b[m.j + m.size - 1].key;
    if m.size > 1 {
      BlockIsInRun(a, b, w, Match(m.i, m.j, m.size - 1));
    }
  }

  /** The lengths for every match of a[i] below j. */
  ghost predicate RunsOf(a: seq<Row>, b: seq<Row>, w: Window, i: nat, j: nat, runs: map<nat, nat>)
    requires WindowOf(w, a, b) && w.begin1 <= i < w.end1 && w.begin2 <= j <= w.end2
  {
    && (forall j' | j' in runs :: w.begin2 <= j' < j && a[i].key == b[j'].key && runs[j'] == RunAt(a, b, w, i, j'))
    && (forall j' | w.begin2 <= j' < j && a[i].key == b[j'].key :: j' in runs)
  }

  /** The lengths for the row before i. */
  ghost predicate RunsBefore(a: seq<Row>, b: seq<Row>, w: Window, i: nat, runs: map<nat, nat>)
    requires WindowOf(w, a, b) && w.begin1 <= i <= w.end1
  {
    if i == w.begin1 then runs == map[] else RunsOf(a, b, w, i - 1, w.end2, runs)
  }

  lemma RunStep(a: seq<Row>, b: seq<Row>, w: Window, i: nat, j: nat, prev: map<nat, nat>, cur: map<nat, nat>)
    requires WindowOf(w, a, b) && w.begin1 <= i < w.end1 && w.begin2 <= j < w.end2
    requires RunsBefore(a, b, w, i, prev) && RunsOf(a, b, w, i, j, cur)
    ensures if a[i].key == b[j].key then
              var size := if j > 0 && j - 1 in prev then prev[j - 1] + 1 else 1;
              size == RunAt(a, b, w, i, j) && RunsOf(a, b, w, i, j + 1, cur[j := size])
            else
              RunAt(a, b, w, i, j) == 0 && RunsOf(a, b, w, i, j + 1, cur)
  {
  }

  /** A block that no block ending in row i before column j, or in an earlier row, is longer than. */
  ghost predicate BestUpTo(a: seq<Row>, b: seq<Row>, w: Window, i: nat, j: nat, best: Match)
    requires WindowOf(w, a, b) && i <= w.end1 && j <= w.end2
  {
    && IsBlock(a, b, w, best)
    && (forall i', j' | w.begin1 <= i' < i && w.begin2 <= j' < w.end2 :: RunAt(a, b, w, i', j') <= best.size)
    && (forall j' | w.begin2 <= j' < j && i < w.end1 && w.begin1 <= i :: RunAt(a, b, w, i, j') <= best.size)
  }

  ghost predicate Longest(a: seq<Row>, b: seq<Row>, w: Window, best: Match)
    requires WindowOf(w, a, b)
  {
    && IsBlock(a, b, w, best)
    && forall m | IsBlock(a, b, w, m) :: m.size <= best.size
  }

  /** A longest common block of the window. Among equally long ones the number of modified rows decides, as
      counted by the given function: if the blocks are single rows, none has fewer than the one found.
   */
  method FindLongestMatch(a: seq<Row>, b: seq<Row>, w: Window, count: (int, int) -> nat) returns (best: Match)
    requires WindowOf(w, a, b)
    ensures Longest(a, b, w, best)
    ensures best.size == 1 ==>
              forall i, j | w.begin1 <= i < w.end1 && w.begin2 <= j < w.end2 && a[i].key == b[j].key ::
                count(best.j, best.j + 1) <= count(j, j + 1)
  {
    hide BestUpTo, RunsOf, RunAt, RunsBefore, IsBlock, FewestUpTo;
    BestStart(a, b, w);
    best := Match(w.begin1, w.begin2, 0);
    var modified: int := -1;
    FewestStart(a, b, w, best, count);
    var prev: map<nat, nat>, cur: map<nat, nat> := map[], map[];
    var i := w.begin1;
    while i < w.end1
      invariant w.begin1 <= i <= w.end1
      invariant BestUpTo(a, b, w, i, w.begin2, best)
      invariant RunsBefore(a, b, w, i, cur)
      invariant FewestUpTo(a, b, w, i, w.begin2, best, modified, count)
    {
      prev, cur := cur, map[];
      var j := w.begin2;
      while j < w.end2
        invariant w.begin2 <= j <= w.end2
        invariant BestUpTo(a, b, w, i, j, best)
        invariant RunsBefore(a, b, w, i, prev) && RunsOf(a, b, w, i, j, cur)
        invariant FewestUpTo(a, b, w, i, j, best, modified, count)
        decreases w.end2 - j
      {
        ghost var before, known := best, modified;
        RunStep(a, b, w, i, j, prev, cur);
        if a[i].key == b[j].key {
          var size := if j > 0 && j - 1 in prev then prev[j - 1] + 1 else 1;
          RunIsBlock(a, b, w, i, j);
          cur := cur[j := size];
          if size > best.size {
            best, modified := Match(i + 1 - size, j + 1 - size, size), -1;
          } else if size == best.size {
            if modified == -1 {
              modified := count(best.j - size + 1, best.j + 1);
            }
            var c := count(j - size + 1, j + 1);
            if c < modified {
              best, modified := Match(i + 1 - size, j + 1 - size, size), c;
            }
          }
        }
        FewestStep(a, b, w, i, j, RunAt(a, b, w, i, j), before, known, best, modified, count);
        BestStep(a, b, w, i, j, before, best);
        j := j + 1;
      }
      FewestNextRow(a, b, w, i, best, modified, count);
      BestNextRow(a, b, w, i, cur, best);
      i := i + 1;
    }
    BestIsLongest(a, b, w, best);
    FewestEnd(a, b, w, best, modified, count);
  }

  /** As long as the best block is a single row, no row matched so far was counted less often, and a count that is
      kept is the one of the best block.
   */
  ghost predicate FewestUpTo(a: seq<Row>, b: seq<Row>, w: Window, i: nat, j: nat, best: Match, modified: int,
                             count: (int, int) -> nat)
    requires WindowOf(w, a, b) && i <= w.end1 && j <= w.end2
  {
    best.size <= 1 ==>
      && (modified != -1 ==> best.size == 1 && modified == count(best.j, best.j + 1))
      && (forall i', j' | w.begin1 <= i' < i && w.begin2 <= j' < w.end2 && a[i'].key == b[j'].key ::
            best.size == 1 && count(best.j, best.j + 1) <= count(j', j' + 1))
      && (forall j' | w.begin1 <= i < w.end1 && w.begin2 <= j' < j && a[i].key == b[j'].key ::
            best.size == 1 && count(best.j, best.j + 1) <= count(j', j' + 1))
  }

  lemma FewestStart(a: seq<Row>, b: seq<Row>, w: Window, best: Match, count: (int, int) -> nat)
    requires WindowOf(w, a, b)
    ensures FewestUpTo(a, b, w, w.begin1, w.begin2, best, -1, count)
  {
  }

  /** The choice between the best block and one of the given size that ends in column j. */
  ghost predicate Chosen(j: nat, size: nat, best: Match, modified: int, best': Match, modified': int,
                         count: (int, int) -> nat)
  {
    if size == 0 || size < best.size then
      best' == best && modified' == modified
    else if size > best.size then
      best'.size == size && best'.j == j + 1 - size && modified' == -1
    else
      var m := if modified == -1 then count(best.j - size + 1, best.j + 1) else modified;
      var c := count(j - size + 1, j + 1);
      if c < m then best'.size == size && best'.j == j + 1 - size && modified' == c
      else best' == best && modified' == m
  }

  lemma FewestStep(a: seq<Row>, b: seq<Row>, w: Window, i: nat, j: nat, size: nat, best: Match, modified: int,
                   best': Match, modified': int, count: (int, int) -> nat)
    requires WindowOf(w, a, b) && w.begin1 <= i < w.end1 && w.begin2 <= j < w.end2
    requires FewestUpTo(a, b, w, i, j, best, modified, count)
    requires a[i].key == b[j].key <==> size > 0
    requires Chosen(j, size, best, modified, best', modified', count)
    ensures FewestUpTo(a, b, w, i, j + 1, best', modified', count)
  {
    if size == 1 && best.size == 1 {
      ChosenIsFewer(j, best, modified, best', modified', count);
    }
  }

  lemma ChosenIsFewer(j: nat, best: Match, modified: int, best': Match, modified': int, count: (int, int) -> nat)
    requires best.size == 1 && (modified != -1 ==> modified == count(best.j, best.j + 1))
    requires Chosen(j, 1, best, modified, best', modified', count)
    ensures best'.size == 1 && modified' == count(best'.j, best'.j + 1)
    ensures modified' <= count(best.j, best.j + 1) && modified' <= count(j, j + 1)
  {
  }

  lemma FewestNextRow(a: seq<Row>, b: seq<Row>, w: Window, i: nat, best: Match, modified: int, count: (int, int) -> nat)
    requires WindowOf(w, a, b) && w.begin1 <= i < w.end1
    requires FewestUpTo(a, b, w, i, w.end2, best, modified, count)
    ensures FewestUpTo(a, b, w, i + 1, w.begin2, best, modified, count)
  {
  }

  lemma FewestEnd(a: seq<Row>, b: seq<Row>, w: Window, best: Match, modified: int, count: (int, int) -> nat)
    requires WindowOf(w, a, b) && best.size == 1 ==> FewestUpTo(a, b, w, w.end1, w.begin2, best, modified, count)
    requires WindowOf(w, a, b)
    ensures best.size == 1 ==>
              forall i, j | w.begin1 <= i < w.end1 && w.begin2 <= j < w.end2 && a[i].key == b[j].key ::
                count(best.j, best.j + 1) <= count(j, j + 1)
  {
  }

  lemma BestStart(a: seq<Row>, b: seq<Row>, w: Window)
    requires WindowOf(w, a, b)
    ensures BestUpTo(a, b, w, w.begin1, w.begin2, Match(w.begin1, w.begin2, 0))
    ensures RunsBefore(a, b, w, w.begin1, map[])
    ensures forall i | w.begin1 <= i < w.end1 :: RunsOf(a, b, w, i, w.begin2, map[])
  {
  }

  lemma BestStep(a: seq<Row>, b: seq<Row>, w: Window, i: nat, j: nat, best: Match, best': Match)
    requires WindowOf(w, a, b) && w.begin1 <= i < w.end1 && w.begin2 <= j < w.end2
    requires BestUpTo(a, b, w, i, j, best)
    requires best' == best || IsBlock(a, b, w, best')
    requires best.size <= best'.size && RunAt(a, b, w, i, j) <= best'.size
    ensures BestUpTo(a, b, w, i, j + 1, best')
  {
  }

  lemma BestNextRow(a: seq<Row>, b: seq<Row>, w: Window, i: nat, cur: map<nat, nat>, best: Match)
    requires WindowOf(w, a, b) && w.begin1 <= i < w.end1
    requires BestUpTo(a, b, w, i, w.end2, best) && RunsOf(a, b, w, i, w.end2, cur)
    ensures BestUpTo(a, b, w, i + 1, w.begin2, best) && RunsBefore(a, b, w, i + 1, cur)
  {
  }

  lemma BestIsLongest(a: seq<Row>, b: seq<Row>, w: Window, best: Match)
    requires WindowOf(w, a, b) && BestUpTo(a, b, w, w.end1, w.begin2, best)
    ensures Longest(a, b, w, best)
  {
    forall m | IsBlock(a, b, w, m)
      ensures m.size <= best.size
    {
      if m.size > 0 {
        BlockIsInRun(a, b, w, m);
      }
    }
  }

  /** Matches inside the window that follow each other in both lists. */
  predicate Blocks(a: seq<Row>, b: seq<Row>, w: Window, ms: seq<Match>)
    requires WindowOf(w, a, b)
    decreases |ms|
  {
    ms != [] ==>
      && IsBlock(a, b, w, ms[0])
      && Blocks(a, b, Window(ms[0].i + ms[0].size, w.end1, ms[0].j + ms[0].size, w.end2), ms[1..])
  }

  ghost predicate HasSize(ms: seq<Match>, size: nat) {
    exists x :: 0 <= x < |ms| && size <= ms[x].size
  }

  lemma {:induction false} BlocksJoin(a: seq<Row>, b: seq<Row>, w: Window, left: seq<Match>, m: Match,
                                      right: seq<Match>)
    requires WindowOf(w, a, b) && IsBlock(a, b, w, m)
    requires Blocks(a, b, Window(w.begin1, m.i, w.begin2, m.j), left)
    requires Blocks(a, b, Window(m.i + m.size, w.end1, m.j + m.size, w.end2), right)
    ensures Blocks(a, b, w, left + [m] + right)
    decreases |left|
  {
    var all := left + [m] + right;
    if left == [] {
      assert all[0] == m && all[1..] == right;
    } else {
      var first := left[0];
      assert all[0] == first && all[1..] == left[1..] + [m] + right;
      var rest := Window(first.i + first.size, w.end1, first.j + first.size, w.end2);
      BlocksJoin(a, b, rest, left[1..], m, right);
    }
  }

  // ---- The search -------------------------------------------------------------------------------

  ghost predicate NoCommonKey(a: seq<Row>, b: seq<Row>, w: Window)
    requires WindowOf(w, a, b)
  {
    forall i, j | w.begin1 <= i < w.end1 && w.begin2 <= j < w.end2 :: a[i].key != b[j].key
  }

  /** The course of a search: nothing found, a part not searched, or a match and the searches left and right of it. */
  datatype Search = Nothing | Untried | Found(m: Match, left: Search, right: Search)

  function LeftOf(w: Window, m: Match): Window {
    Window(w.begin1, m.i, w.begin2, m.j)
  }

  function RightOf(w: Window, m: Match): Window {
    Window(m.i + m.size, w.end1, m.j + m.size, w.end2)
  }

  /** The search as it is made. The condition on the right part compares a position in the first list with the end of
      the second.
   */
  ghost predicate SearchOf(a: seq<Row>, b: seq<Row>, w: Window, search: Search)
    decreases search
  {
    && WindowOf(w, a, b)
    && match search
       case Nothing => NoCommonKey(a, b, w)
       case Untried => false
       case Found(m, left, right) =>
         && Longest(a, b, w, m) && m.size > 0
         && (if m.i > w.begin1 && m.j > w.begin2 then SearchOf(a, b, LeftOf(w, m), left) else left == Untried)
         && (if m.i + m.size < w.end2 && m.j + m.size < w.end2 then SearchOf(a, b, RightOf(w, m), right)
             else right == Untried)
  }

  function Matches(search: Search): seq<Match> {
    match search
    case Found(m, left, right) => Matches(left) + [m] + Matches(right)
    case _ => []
  }

  /** The parts that were not searched. */
  function Skipped(w: Window, search: Search): seq<Window>
    decreases search
  {
    match search
    case Nothing => []
    case Untried => [w]
    case Found(m, left, right) => Skipped(LeftOf(w, m), left) + Skipped(RightOf(w, m), right)
  }

  /** The parts between one match and the next. */
  function Gaps(w: Window, ms: seq<Match>): seq<Window>
    decreases |ms|
  {
    if ms == [] then [w] else [LeftOf(w, ms[0])] + Gaps(RightOf(w, ms[0]), ms[1..])
  }

  /** The matches left and right of the longest one, and so on inside them. */
  method FindLongestMatches(a: seq<Row>, b: seq<Row>, w: Window, count: (int, int) -> nat)
    returns (ms: seq<Match>, ghost search: Search)
    requires WindowOf(w, a, b)
    ensures SearchOf(a, b, w, search) && ms == Matches(search)
    ensures Blocks(a, b, w, ms)
    decreases w.end1 - w.begin1
  {
    var m := FindLongestMatch(a, b, w, count);
    if m.size == 0 {
      NothingCommon(a, b, w, m);
      return [], Nothing;
    }
    var left, right: seq<Match> := [], [];
    ghost var l, r := Untried, Untried;
    if m.i > w.begin1 && m.j > w.begin2 {
      left, l := FindLongestMatches(a, b, LeftOf(w, m), count);
    }
    if m.i + m.size < w.end2 && m.j + m.size < w.end2 {
      right, r := FindLongestMatches(a, b, RightOf(w, m), count);
    }
    BlocksJoin(a, b, w, left, m, right);
    ms := left + [m] + right;
    search := Found(m, l, r);
  }

  lemma NothingCommon(a: seq<Row>, b: seq<Row>, w: Window, m: Match)
    requires WindowOf(w, a, b) && Longest(a, b, w, m) && m.size == 0
    ensures NoCommonKey(a, b, w)
  {
    forall i, j | w.begin1 <= i < w.end1 && w.begin2 <= j < w.end2
      ensures a[i].key != b[j].key
    {
      assert !IsBlock(a, b, w, Match(i, j, 1));
    }
  }

  // ---- What the search finds and what it misses -------------------------------------------------

  /** One of the matches is as long as any common block. */
  lemma SearchHasLongest(a: seq<Row>, b: seq<Row>, w: Window, search: Search, block: Match)
    requires SearchOf(a, b, w, search) && IsBlock(a, b, w, block) && block.size > 0
    ensures HasSize(Matches(search), block.size)
  {
    BlockIsCommon(a, b, w, block);
    assert search.Found?;
    assert Matches(search)[|Matches(search.left)|] == search.m;
  }

  lemma BlockIsCommon(a: seq<Row>, b: seq<Row>, w: Window, block: Match)
    requires WindowOf(w, a, b) && IsBlock(a, b, w, block) && block.size > 0
    ensures !NoCommonKey(a, b, w)
  {
    assert a[block.i].key == b[block.j].key;
  }

  lemma {:induction false} GapsJoin(w: Window, left: seq<Match>, m: Match, right: seq<Match>)
    ensures Gaps(w, left + [m] + right) == Gaps(LeftOf(w, m), left) + Gaps(RightOf(w, m), right)
    decreases |left|
  {
    var all := left + [m] + right;
    if left == [] {
      assert all[0] == m && all[1..] == right;
    } else {
      assert all[0] == left[0] && all[1..] == left[1..] + [m] + right;
      GapsJoin(RightOf(w, left[0]), left[1..], m, right);
    }
  }

  ghost predicate AllBarren(a: seq<Row>, b: seq<Row>, ws: seq<Window>) {
    forall w | w in ws :: WindowOf(w, a, b) ==> NoCommonKey(a, b, w)
  }

  /** No gap between matches holds a common key if and only if no skipped part does. */
  lemma {:induction false} GapsBarrenIffSkippedAre(a: seq<Row>, b: seq<Row>, w: Window, search: Search)
    requires search == Untried || SearchOf(a, b, w, search)
    ensures AllBarren(a, b, Gaps(w, Matches(search))) <==> AllBarren(a, b, Skipped(w, search))
    decreases search
  {
    if search.Found? {
      var m := search.m;
      GapsBarrenIffSkippedAre(a, b, LeftOf(w, m), search.left);
      GapsBarrenIffSkippedAre(a, b, RightOf(w, m), search.right);
      GapsJoin(w, Matches(search.left), m, Matches(search.right));
    }
  }

  /** A skipped part holds no common key unless it begins, in the first list, at or behind its end in the second: the
      one case in which the condition on the right part goes wrong.
   */
  lemma {:induction false} SkippedIsBarrenUnlessBehind(a: seq<Row>, b: seq<Row>, w: Window, search: Search, u: Window)
    requires SearchOf(a, b, w, search) && u in Skipped(w, search) && u.begin1 < u.end2
    ensures WindowOf(u, a, b) && NoCommonKey(a, b, u)
    decreases search
  {
    var m, l, r := search.m, search.left, search.right;
    if u in Skipped(LeftOf(w, m), l) {
      if l != Untried {
        SkippedIsBarrenUnlessBehind(a, b, LeftOf(w, m), l, u);
      }
    } else if r != Untried {
      SkippedIsBarrenUnlessBehind(a, b, RightOf(w, m), r, u);
    }
  }

  // ---- A match that is missed -------------------------------------------------------------------

  function Keyed(keys: seq<int>): (rows: seq<Row>)
    ensures |rows| == |keys| && forall x | 0 <= x < |rows| :: rows[x] == Row(keys[x], x)
  {
    seq(|keys|, x requires 0 <= x < |keys| => Row(keys[x], x))
  }

  /** Rows 1 to 9, and the same rows with 1, 4 and 6 moved to the end. */
  function OldOrder(): seq<Row> {
    Keyed([1, 2, 3, 4, 5, 6, 7, 8, 9])
  }

  function NewOrder(): seq<Row> {
    Keyed([2, 3, 5, 7, 8, 9, 1, 4, 6])
  }

  /** In this change rows 2, 3 and 7, 8, 9 are matched, whatever decides between equally long blocks. Row 5, which lies
      between them before and after, is not: the part that holds it is skipped, so it is moved although it need not be.
   */
  lemma MatchIsMissed(search: Search)
    requires SearchOf(OldOrder(), NewOrder(), Window(0, 9, 0, 9), search)
    ensures Matches(search) == [Match(1, 0, 2), Match(6, 3, 3)]
    ensures Window(3, 6, 2, 3) in Skipped(Window(0, 9, 0, 9), search)
    ensures OldOrder()[4].key == NewOrder()[2].key && !NoCommonKey(OldOrder(), NewOrder(), Window(3, 6, 2, 3))
  {
    hide Longest;
    var w, left := Window(0, 9, 0, 9), Window(0, 6, 0, 3);
    assert OldOrder()[6].key == NewOrder()[3].key;
    LongIsLast(search.m);
    assert OldOrder()[1].key == NewOrder()[0].key;
    LeftIsFirst(search.left.m);
    assert search.left.left == Untried && search.left.right == Untried && search.right == Untried;
    assert Matches(search.left) == [Match(1, 0, 2)];
    assert Skipped(left, search.left) == [LeftOf(left, Match(1, 0, 2)), RightOf(left, Match(1, 0, 2))];
  }

  lemma LongIsLast(m: Match)
    requires Longest(OldOrder(), NewOrder(), Window(0, 9, 0, 9), m)
    ensures m == Match(6, 3, 3)
  {
    assert IsBlock(OldOrder(), NewOrder(), Window(0, 9, 0, 9), Match(6, 3, 3));
    InStep(m, 0);
    InStep(m, 1);
    InStep(m, 2);
  }

  lemma LeftIsFirst(m: Match)
    requires Longest(OldOrder(), NewOrder(), Window(0, 6, 0, 3), m)
    ensures m == Match(1, 0, 2)
  {
    assert IsBlock(OldOrder(), NewOrder(), Window(0, 6, 0, 3), Match(1, 0, 2));
    InStep(m, 0);
    InStep(m, 1);
    InStep(m, m.size - 1);
  }

  /** The keys of a block count up. */
  lemma InStep(m: Match, k: nat)
    requires m.i + m.size <= 9 && m.j + m.size <= 9 && SameKeys(OldOrder(), NewOrder(), m.i, m.j, m.size) && k < m.size
    ensures NewOrder()[m.j + k].key == m.i + k + 1
  {
    assert OldOrder()[m.i + k].key == NewOrder()[m.i + k - m.i + m.j].key;
  }
}
