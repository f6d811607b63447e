/** Keeping track of one list while the instructions of a transaction log are read. */
module TransactLogs {
  import opened Store
  import opened ListOps
  import opened IndexSets
  import opened Changesets
  import opened ChangesetBuilders

  type ListId = int

  /** The list instructions work on the list selected last. */
  datatype Instruction =
    | SelectList(list: ListId)
    | ListSet(index: nat, row: int)
    | ListInsert(index: nat, row: int)
    | ListErase(index: nat)
    | ListMove(from: nat, to: nat)
    | ListSwap(index1: nat, index2: nat)
    | ListClear(oldSize: nat)

  /** A row of a list with its history: the position it had at the start, unless it was inserted since, and whether it
      has been set.
   */
  datatype Entry = Entry(row: int, origin: Option<nat>, marked: bool)

  type Content = seq<Entry>

  datatype World = World(lists: map<ListId, Content>, selected: ListId)

  /** The content of a list at the start. */
  predicate Fresh(s: Content) {
    forall n | 0 <= n < |s| :: s[n].origin == Some(n) && !s[n].marked
  }

  function RowsOf(s: Content): (rows: Rows)
    ensures |rows| == |s|
  {
    seq(|s|, n requires 0 <= n < |s| => s[n].row)
  }

  // ---- What the instructions do -----------------------------------------------------------------

  function WithRow<T>(s: seq<T>, index: nat, row: T): seq<T>
    requires index <= |s|
  {
    s[..index] + [row] + s[index..]
  }

  /** The row at from is taken out and put in at to. */
  function MovedRow<T>(s: seq<T>, from: nat, to: nat): seq<T>
    requires from < |s| && to < |s|
  {
    WithRow(Without(s, from), to, s[from])
  }

  predicate Fitting(s: Content, i: Instruction) {
    match i
    case SelectList(_) => true
    case ListSet(index, _) => index < |s|
    case ListInsert(index, _) => index <= |s|
    case ListErase(index) => index < |s|
    case ListMove(from, to) => from != to && from < |s| && to < |s|
    case ListSwap(index1, index2) => index1 != index2 && index1 < |s| && index2 < |s|
    case ListClear(oldSize) => oldSize == |s|
  }

  /** Rows carry their history with them: an inserted row has none, and setting a row marks it. */
  function Changed(s: Content, i: Instruction): Content
    requires Fitting(s, i)
  {
    match i
    case SelectList(_) => s
    case ListSet(index, row) => s[index := Entry(row, s[index].origin, true)]
    case ListInsert(index, row) => WithRow(s, index, Entry(row, None, false))
    case ListErase(index) => Without(s, index)
    case ListMove(from, to) => MovedRow(s, from, to)
    case ListSwap(index1, index2) => s[index1 := s[index2]][index2 := s[index1]]
    case ListClear(_) => []
  }

  predicate Possible(w: World, i: Instruction) {
    match i
    case SelectList(list) => list in w.lists
    case _ => w.selected in w.lists && Fitting(w.lists[w.selected], i)
  }

  function Step(w: World, i: Instruction): World
    requires Possible(w, i)
  {
    match i
    case SelectList(list) => w.(selected := list)
    case _ => w.(lists := w.lists[w.selected := Changed(w.lists[w.selected], i)])
  }

  predicate AllPossible(w: World, log: seq<Instruction>)
    decreases |log|, 0
  {
    log == [] || (var most := log[..|log| - 1]; AllPossible(w, most) && Possible(Run(w, most), log[|log| - 1]))
  }

  function Run(w: World, log: seq<Instruction>): (w': World)
    requires AllPossible(w, log)
    ensures w'.lists.Keys == w.lists.Keys
    decreases |log|, 1
  {
    if log == [] then w else Step(Run(w, log[..|log| - 1]), log[|log| - 1])
  }

  // ---- What a changeset must say ----------------------------------------------------------------

  /** The changeset says exactly what happened: a row is said to come from b to n if and only if the one now at n was at
      b at the start, and to be modified if and only if it has been set.
   */
  ghost predicate Exactly(l: nat, s: Content, c: Changes) {
    && Fits(c, l, |s|)
    && (forall b: nat, n: nat | b < l && n < |s| :: Comes(c, b, n) <==> s[n].origin == Some(b))
    && (forall n | 0 <= n < |s| && s[n].origin.Some? :: s[n].origin.value < l)
    && (forall n: nat :: n in c.modifications <==> n < |s| && s[n].marked)
  }

  /** A row of the l there were comes to n. */
  ghost predicate HasSource(c: Changes, l: nat, n: nat) {
    exists b: nat :: b < l && Comes(c, b, n)
  }

  /** Rows come to s' with the history they had in s, and a row that comes from nowhere has none. */
  ghost predicate Carries(s: Content, s': Content, c: Changes) {
    && Fits(c, |s|, |s'|) && (forall n | n in c.modifications :: n < |s'|)
    && (forall b: nat, n: nat | b < |s| && n < |s'| && Comes(c, b, n) ::
          s'[n].origin == s[b].origin && (s'[n].marked <==> s[b].marked || n in c.modifications))
    && (forall n: nat | n < |s'| ::
          || HasSource(c, |s|, n)
          || (s'[n].origin == None && (s'[n].marked <==> n in c.modifications)))
  }

  lemma RecordExactly(c1: Changes, c2: Changes, c: Changes, l: nat, s: Content, s': Content)
    requires Proper(c1) && Proper(c2) && Recorded(c1, c2, c)
    requires Exactly(l, s, c1) && Carries(s, s', c2)
    ensures Proper(c) && Exactly(l, s', c)
  {
    hide Comes, Proper, Joined, Fits;
    RecordedJoins(c1, c2, c);
    JoinedProper(c1, c2, c);
    JoinedFits(c1, c2, c, l, |s|, |s'|);
    forall a: nat, n: nat | a < l && n < |s'|
      ensures Comes(c, a, n) <==> s'[n].origin == Some(a)
    {
      JoinedComes(c1, c2, c, a, n);
      if b :| Comes(c1, a, b) && Comes(c2, b, n) {
        ComesInRange(c1, a, b, l, |s|);
      }
      if HasSource(c2, |s|, n) {
        var b: nat :| b < |s| && Comes(c2, b, n);
      }
    }
    forall n | 0 <= n < |s'| && s'[n].origin.Some?
      ensures s'[n].origin.value < l
    {
      var b: nat :| b < |s| && Comes(c2, b, n);
    }
    forall n: nat
      ensures n in c.modifications <==> n < |s'| && s'[n].marked
    {
      if b :| b in c1.modifications && Comes(c2, b, n) {
        ComesInRange(c2, b, n, |s|, |s'|);
      }
      if n < |s'| && HasSource(c2, |s|, n) {
        var b: nat :| b < |s| && Comes(c2, b, n);
      }
    }
  }

  lemma RecordedJoins(c1: Changes, c2: Changes, c: Changes)
    requires Recorded(c1, c2, c)
    ensures Joined(c1, c2, c)
  {
  }

  lemma CleanExactly(c: Changes, c': Changes, l: nat, s: Content)
    requires CleanOf(c, c') && Exactly(l, s, c)
    ensures Exactly(l, s, c')
  {
    hide Comes, Proper, Fits;
  }

  /** Deleted are exactly the rows that are gone or reported as moved, and inserted those that are new or moved. */
  lemma ExactEnds(l: nat, s: Content, c: Changes, p: nat)
    requires Proper(c) && Exactly(l, s, c)
    ensures p < l ==>
              (p in c.deletions <==>
                 (forall n | 0 <= n < |s| :: s[n].origin != Some(p)) || exists n :: Move(p, n) in c.moves)
    ensures p < |s| ==> (p in c.insertions <==> s[p].origin == None || EndsAt(c.moves, p))
  {
    hide Unshift, Shift, OneToOne;
    if p < l && p !in c.deletions {
      var n := Shift(c.insertions, Unshift(c.deletions, p));
      assert Comes(c, p, n);
      ComesInRange(c, p, n, l, |s|);
    }
    WasThere(c, p);
    if b :| p < |s| && Comes(c, b, p) {
      ComesFromRange(c, b, p, l, |s|);
    }
    if p < |s| && s[p].origin.Some? {
      assert Comes(c, s[p].origin.value, p);
    }
  }

  lemma ComesFromRange(c: Changes, b: nat, n: nat, l: nat, m: nat)
    requires Proper(c) && Fits(c, l, m) && Comes(c, b, n) && n < m
    ensures b < l
  {
    hide Unshift, OneToOne;
    if Stays(c, b, n) && l <= b {
      UnshiftClimbs(c.deletions, l, b);
      UnshiftClimbs(c.insertions, n, m);
    }
  }

  // ---- What single changes say ------------------------------------------------------------------

  lemma SetCarries(s: Content, index: nat, row: int)
    requires index < |s|
    ensures Proper(Replaced(index)) && Carries(s, Changed(s, ListSet(index, row)), Replaced(index))
  {
    hide Unshift;
    NothingStays(Replaced(index).(modifications := {}));
    NoShift(|s|);
    forall b: nat, n: nat
      ensures Comes(Replaced(index), b, n) <==> b == n
    {
      NoShift(b);
      NoShift(n);
    }
    forall n: nat | n < |s|
      ensures HasSource(Replaced(index), |s|, n)
    {
      assert Comes(Replaced(index), n, n);
    }
  }

  lemma InsertCarries(s: Content, index: nat, row: int)
    requires index <= |s|
    ensures Proper(Added(index, 1)) && Carries(s, Changed(s, ListInsert(index, row)), Added(index, 1))
  {
    hide Changed, Added, Fits, Comes;
    AddedStays(index, 1);
    AddedFits(|s|, index);
    InsertedAt(s, index, row, index);
    forall n: nat | n <= |s| && n != index
      ensures HasSource(Added(index, 1), |s|, n)
      ensures Changed(s, ListInsert(index, row))[n] == s[if n < index then n else n - 1]
    {
      InsertedAt(s, index, row, n);
      assert Comes(Added(index, 1), if n < index then n else n - 1, n);
    }
  }

  lemma AddedFits(l: nat, index: nat)
    requires index <= l
    ensures Fits(Added(index, 1), l, l + 1) && Added(index, 1).modifications == {}
  {
    hide Unshift;
    NoShift(l);
    UnshiftCounts(Block(index, 1), 1, l + 1);
    assert forall n | n in Block(index, 1) :: n in Members(Block(index, 1));
  }

  lemma InsertedAt(s: Content, index: nat, row: int, n: nat)
    requires index <= |s|
    ensures var s' := Changed(s, ListInsert(index, row));
            && |s'| == |s| + 1
            && (n <= |s| ==>
                  s'[n] == if n < index then s[n] else if n == index then Entry(row, None, false) else s[n - 1])
  {
  }

  lemma EraseCarries(s: Content, index: nat)
    requires index < |s|
    ensures Proper(Gone(index)) && Carries(s, Changed(s, ListErase(index)), Gone(index))
  {
    hide Changed, Gone, Fits, Comes;
    GoneComes(index);
    GoneFits(|s|, index);
    ErasedAt(s, index, 0);
    forall n: nat | n < |s| - 1
      ensures HasSource(Gone(index), |s|, n)
      ensures Changed(s, ListErase(index))[n] == s[if n < index then n else n + 1]
    {
      ErasedAt(s, index, n);
      assert Comes(Gone(index), if n < index then n else n + 1, n);
    }
  }

  lemma GoneFits(l: nat, index: nat)
    requires index < l
    ensures Fits(Gone(index), l, l - 1) && Gone(index).modifications == {}
  {
    hide Unshift;
    TakeOne(index);
    NoShift(l - 1);
  }

  lemma ErasedAt(s: Content, index: nat, n: nat)
    requires index < |s|
    ensures var s' := Changed(s, ListErase(index));
            |s'| == |s| - 1 && (n < |s'| ==> s'[n] == if n < index then s[n] else s[n + 1])
  {
  }

  lemma MoveCarries(s: Content, from: nat, to: nat)
    requires from != to && from < |s| && to < |s|
    ensures Proper(Taken(from, to)) && Carries(s, MovedRow(s, from, to), Taken(from, to))
  {
    hide Unshift, MovedRow;
    TakenComes(from, to);
    TakeOne(from);
    TakeOne(to);
    MovedRowAt(s, from, to, from);
    forall b: nat | b < |s|
      ensures MovedRow(s, from, to)[
        if b == from then to else if to <= b < from then b + 1 else if from < b <= to then b - 1 else b] == s[b]
    {
      MovedRowAt(s, from, to, b);
    }
    forall n: nat | n < |s|
      ensures HasSource(Taken(from, to), |s|, n)
    {
      assert Comes(Taken(from, to),
                   if n == to then from else if from <= n < to then n + 1 else if to < n <= from then n - 1 else n, n);
    }
  }

  lemma MovedRowAt<T>(s: seq<T>, from: nat, to: nat, b: nat)
    requires from != to && from < |s| && to < |s| && b < |s|
    ensures |MovedRow(s, from, to)| == |s|
    ensures MovedRow(s, from, to)[
      if b == from then to else if to <= b < from then b + 1 else if from < b <= to then b - 1 else b] == s[b]
  {
  }

  lemma EmptiedExactly(l: nat)
    ensures Proper(Emptied(l)) && Exactly(l, [], Emptied(l))
  {
    hide Unshift;
    UnshiftCounts(Block(0, l), l, l);
    NoShift(0);
  }

  /** Two rows change places in two moves, or in one if they are neighbours. */
  lemma SwapMoves<T>(s: seq<T>, i: nat, j: nat)
    requires i < j < |s|
    ensures var t := MovedRow(s, i, j);
            s[i := s[j]][j := s[i]] == if i + 1 == j then t else MovedRow(t, j - 1, i)
  {
    hide MovedRow;
    var t := MovedRow(s, i, j);
    MovedRowAt(s, i, j, i);
    forall b | 0 <= b < |s|
      ensures t[if b == i then j else if i < b <= j then b - 1 else b] == s[b]
    {
      MovedRowAt(s, i, j, b);
    }
    if i + 1 < j {
      MovedRowAt(t, j - 1, i, i);
      forall b | 0 <= b < |s|
        ensures MovedRow(t, j - 1, i)[if b == j - 1 then i else if i <= b < j - 1 then b + 1 else b] == t[b]
      {
        MovedRowAt(t, j - 1, i, b);
      }
    }
  }

  // ---- The observer -----------------------------------------------------------------------------

  class Observer {
    const list: ListId
    const changes: Builder
    var active: bool

    constructor (list: ListId, changes: Builder)
      ensures this.list == list && this.changes == changes && !active
    {
      this.list, this.changes, active := list, changes, false;
    }

    /** The changes so far say exactly what has happened to the list of l rows. */
    ghost predicate Following(l: nat, w: World)
      reads this, changes
    {
      && changes.Valid() && list in w.lists && (active <==> w.selected == list)
      && Exactly(l, w.lists[list], changes.Value())
    }

    method Observe(i: Instruction, ghost l: nat, ghost w: World)
      requires Following(l, w) && Possible(w, i)
      modifies this`active, changes
      ensures Following(l, Step(w, i))
    {
      hide Exactly, Carries, Recorded, Changed, Proper, Emptied, Replaced, Added, Gone, Taken;
      ghost var c1, s := changes.Value(), w.lists[list];
      ChangesAreProper(changes);
      if i.SelectList? {
        active := i.list == list;
      } else if active {
        ghost var s' := Changed(s, i);
        match i
        case ListSet(index, row) =>
          changes.Modify(index);
          SetCarries(s, index, row);
          RecordExactly(c1, Replaced(index), changes.Value(), l, s, s');
        case ListInsert(index, row) =>
          changes.Insert(index, 1);
          InsertCarries(s, index, row);
          RecordExactly(c1, Added(index, 1), changes.Value(), l, s, s');
        case ListErase(index) =>
          changes.Erase(index);
          EraseCarries(s, index);
          RecordExactly(c1, Gone(index), changes.Value(), l, s, s');
        case ListMove(from, to) =>
          changes.MoveRow(from, to);
          MoveCarries(s, from, to);
          MovesRow(s, from, to);
          RecordExactly(c1, Taken(from, to), changes.Value(), l, s, s');
        case ListSwap(index1, index2) =>
          Swap(if index1 > index2 then index2 else index1, if index1 > index2 then index1 else index2, l, s);
          SwapsBack(s, index1, index2);
        case ListClear(oldSize) =>
          ExactlyFits(l, s, c1);
          changes.Clear(oldSize, l);
          EmptiedExactly(l);
          ClearsAll(s, i);
      }
    }

    /** Two rows change places. */
    method Swap(index1: nat, index2: nat, ghost l: nat, ghost s: Content)
      requires changes.Valid() && index1 < index2 < |s| && Exactly(l, s, changes.Value())
      modifies changes
      ensures changes.Valid() && Exactly(l, s[index1 := s[index2]][index2 := s[index1]], changes.Value())
    {
      hide Exactly, Carries, Recorded, Taken, Proper, MovedRow;
      ghost var c1, t := changes.Value(), MovedRow(s, index1, index2);
      ChangesAreProper(changes);
      changes.MoveRow(index1, index2);
      MoveCarries(s, index1, index2);
      RecordExactly(c1, Taken(index1, index2), changes.Value(), l, s, t);
      SwapMoves(s, index1, index2);
      if index1 + 1 != index2 {
        ghost var c2 := changes.Value();
        ChangesAreProper(changes);
        MovedRowAt(s, index1, index2, index1);
        changes.MoveRow(index2 - 1, index1);
        MoveCarries(t, index2 - 1, index1);
        RecordExactly(c2, Taken(index2 - 1, index1), changes.Value(), l, t, MovedRow(t, index2 - 1, index1));
      }
    }

    /** At the end of the log, moves that are none are dropped. */
    method ParseComplete(ghost l: nat, ghost w: World)
      requires Following(l, w)
      modifies changes
      ensures Following(l, w) && NoneStale(changes.Value())
    {
      hide Exactly, SameRows;
      ghost var c := changes.Value();
      changes.CleanUpStaleMoves();
      CleanExactly(c, changes.Value(), l, w.lists[list]);
    }
  }

  lemma ChangesAreProper(b: Builder)
    requires b.Valid()
    ensures Proper(b.Value())
  {
  }

  lemma ExactlyFits(l: nat, s: Content, c: Changes)
    requires Exactly(l, s, c)
    ensures Fits(c, l, |s|)
  {
  }

  lemma MovesRow(s: Content, from: nat, to: nat)
    requires from != to && from < |s| && to < |s|
    ensures Changed(s, ListMove(from, to)) == MovedRow(s, from, to)
  {
  }

  lemma SwapsBack(s: Content, i: nat, j: nat)
    requires i != j && i < |s| && j < |s|
    ensures s[i := s[j]][j := s[i]] == s[j := s[i]][i := s[j]] == Changed(s, ListSwap(i, j))
  {
  }

  lemma ClearsAll(s: Content, i: Instruction)
    requires i.ListClear? && Fitting(s, i)
    ensures Changed(s, i) == []
  {
  }

  /** Rows that have not been set are the rows they were. */
  ghost predicate SameUnlessMarked(first: Content, s: Content) {
    forall e | e in s && e.origin.Some? ::
      e.origin.value < |first| && (e.marked || e.row == first[e.origin.value].row)
  }

  lemma {:induction false} RunSame(w: World, log: seq<Instruction>, list: ListId)
    requires AllPossible(w, log) && list in w.lists && Fresh(w.lists[list])
    ensures SameUnlessMarked(w.lists[list], Run(w, log).lists[list])
    decreases |log|
  {
    if log != [] {
      var most, i := log[..|log| - 1], log[|log| - 1];
      RunSame(w, most, list);
      var w' := Run(w, most);
      if !i.SelectList? && w'.selected == list {
        ChangedSame(w.lists[list], w'.lists[list], i);
      }
    }
  }

  lemma ChangedSame(first: Content, s: Content, i: Instruction)
    requires SameUnlessMarked(first, s) && Fitting(s, i)
    ensures SameUnlessMarked(first, Changed(s, i))
  {
    if i.ListSet? {
      assert s[i.index] in s;
    } else if i.ListMove? {
      assert s[i.from] in s;
    } else if i.ListSwap? {
      assert s[i.index1] in s && s[i.index2] in s;
    }
  }

  lemma ExactlyTracks(first: Content, s: Content, c: Changes)
    requires Exactly(|first|, s, c) && SameUnlessMarked(first, s)
    ensures Tracks(RowsOf(first), RowsOf(s), c)
  {
    hide Comes, Fits;
  }

  /** Read a log with an observer of one list. Whatever the log does to this list and others, its changes say exactly
      what has happened to the list: where each row has come from, and which rows have been set. So they lead from the
      content at the start to the content at the end, and no move is reported that is none.
   */
  method Parse(list: ListId, log: seq<Instruction>, ghost w: World) returns (changes: Builder)
    requires list in w.lists && w.selected !in w.lists && AllPossible(w, log) && Fresh(w.lists[list])
    ensures fresh(changes) && changes.Valid()
    ensures var s, c := Run(w, log).lists[list], changes.Value();
            && Fits(c, |w.lists[list]|, |s|)
            && (forall b: nat, n: nat | b < |w.lists[list]| && n < |s| :: Comes(c, b, n) <==> s[n].origin == Some(b))
            && (forall n: nat :: n in c.modifications <==> n < |s| && s[n].marked)
            && NoneStale(c)
            && Tracks(RowsOf(w.lists[list]), RowsOf(s), c)
  {
    hide Tracks, Step, Possible, NoneStale, Fits, Comes;
    changes := new Builder([], [], [], []);
    var observer := new Observer(list, changes);
    ghost var first := w.lists[list];
    NothingExactly(first, changes);
    AllPossiblePrefix(w, log, 0);
    var i := 0;
    while i < |log|
      invariant 0 <= i <= |log| && AllPossible(w, log[..i]) && observer.list == list && observer.changes == changes
      invariant fresh(observer) && fresh(changes)
      invariant observer.Following(|first|, Run(w, log[..i]))
    {
      AllPossiblePrefix(w, log, i + 1);
      assert log[..i + 1][..i] == log[..i];
      observer.Observe(log[i], |first|, Run(w, log[..i]));
      i := i + 1;
    }
    assert log[..i] == log;
    observer.ParseComplete(|first|, Run(w, log));
    RunSame(w, log, list);
    ExactlyTracks(first, Run(w, log).lists[list], changes.Value());
  }

  lemma {:induction false} AllPossiblePrefix(w: World, log: seq<Instruction>, n: nat)
    requires AllPossible(w, log) && n <= |log|
    ensures AllPossible(w, log[..n])
    decreases |log|
  {
    if n == |log| {
      assert log[..n] == log;
    } else {
      AllPossiblePrefix(w, log[..|log| - 1], n);
      assert log[..|log| - 1][..n] == log[..n];
    }
  }

  lemma NothingExactly(s: Content, b: Builder)
    requires b.Valid() && b.Value() == Changes({}, {}, {}, []) && Fresh(s)
    ensures Exactly(|s|, s, b.Value())
  {
    NothingStays(b.Value());
  }
}
