/** Changesets that are built up in steps: merged with later changesets, and cleaned of moves that no longer are any. */
module ChangesetBuilders {
  import opened ListOps
  import opened IndexSets
  import opened Changesets

  datatype Move = Move(from: nat, to: nat)

  /** Positions deleted from the old content, and inserted and modified in the new one. A row that moved is deleted
      and inserted.
   */
  datatype Changes = Changes(deletions: set<nat>, insertions: set<nat>, modifications: set<nat>, moves: seq<Move>)

  // ---- What a changeset says about the rows -----------------------------------------------------

  /** The row at b before is kept in place and is the one at n afterwards. */
  ghost predicate Stays(c: Changes, b: nat, n: nat) {
    b !in c.deletions && n !in c.insertions && Unshift(c.deletions, b) == Unshift(c.insertions, n)
  }

  /** The row at b before is the one at n afterwards. */
  ghost predicate Comes(c: Changes, b: nat, n: nat) {
    Stays(c, b, n) || Move(b, n) in c.moves
  }

  ghost predicate OneToOne(moves: seq<Move>) {
    forall x, y | 0 <= x < y < |moves| :: moves[x].from != moves[y].from && moves[x].to != moves[y].to
  }

  ghost predicate Proper(c: Changes) {
    && (forall m | m in c.moves :: m.from in c.deletions && m.to in c.insertions)
    && OneToOne(c.moves)
  }

  /** A changeset for contents of l rows before and n rows afterwards. */
  ghost predicate Fits(c: Changes, l: nat, n: nat) {
    && (forall p | p in c.deletions :: p < l) && (forall p | p in c.insertions :: p < n)
    && Unshift(c.deletions, l) == Unshift(c.insertions, n)
  }

  /** The changeset leads from one content to the other: it has the right size, and rows come where it says. */
  ghost predicate Leads(prev: Rows, next: Rows, c: Changes) {
    && Fits(c, |prev|, |next|)
    && (forall b: nat, n: nat | Comes(c, b, n) && b < |prev| && n < |next| :: prev[b] == next[n])
  }

  lemma StaysOneToOne(c: Changes, b: nat, n: nat, b': nat, n': nat)
    requires Stays(c, b, n) && Stays(c, b', n')
    ensures b == b' <==> n == n'
  {
    UnshiftOrder(c.deletions, b, b');
    UnshiftOrder(c.deletions, b', b);
    UnshiftOrder(c.insertions, n, n');
    UnshiftOrder(c.insertions, n', n);
  }

  lemma MoveOneToOne(moves: seq<Move>, m: Move, m': Move)
    requires OneToOne(moves) && m in moves && m' in moves && (m.from == m'.from || m.to == m'.to)
    ensures m == m'
  {
    var x :| 0 <= x < |moves| && moves[x] == m;
    var y :| 0 <= y < |moves| && moves[y] == m';
    assert x == y;
  }

  /** Every row comes to one place at most, and from one place at most. */
  lemma ComesOneToOne(c: Changes, b: nat, n: nat, b': nat, n': nat)
    requires Proper(c) && Comes(c, b, n) && Comes(c, b', n')
    ensures b == b' <==> n == n'
  {
    hide Unshift, OneToOne;
    if Stays(c, b, n) && Stays(c, b', n') {
      StaysOneToOne(c, b, n, b', n');
    } else if (b == b' || n == n') && Move(b, n) in c.moves && Move(b', n') in c.moves {
      MoveOneToOne(c.moves, Move(b, n), Move(b', n'));
    }
  }

  // ---- Merging ----------------------------------------------------------------------------------

  /** A row moved if it moved in the first changeset and was still there after the second, or in the second one. */
  ghost predicate JoinedMove(c1: Changes, c2: Changes, a: nat, n: nat) {
    || (exists b :: Move(a, b) in c1.moves && Comes(c2, b, n))
    || (exists b :: Stays(c1, a, b) && Move(b, n) in c2.moves)
  }

  ghost predicate Joined(c1: Changes, c2: Changes, c: Changes) {
    && c.deletions == Inserted(Erased(c2.deletions, c1.insertions), c1.deletions)
    && c.insertions == Inserted(Erased(c1.insertions, c2.deletions), c2.insertions)
    && (forall a, n :: Move(a, n) in c.moves <==> JoinedMove(c1, c2, a, n))
    && (forall x, y | 0 <= x < y < |c.moves| :: c.moves[x] != c.moves[y])
  }

  lemma JoinedStays(c1: Changes, c2: Changes, c: Changes, a: nat, n: nat)
    requires Joined(c1, c2, c)
    ensures Stays(c, a, n) <==> exists b :: Stays(c1, a, b) && Stays(c2, b, n)
  {
    hide Unshift, Shift, Inserted, Erased, JoinedMove;
    var x, y := Erased(c2.deletions, c1.insertions), Erased(c1.insertions, c2.deletions);
    InInserted(x, c1.deletions, a);
    InInserted(y, c2.insertions, n);
    UnshiftInserted(x, c1.deletions, a);
    UnshiftInserted(y, c2.insertions, n);
    if a !in c1.deletions && n !in c2.insertions {
      var b := Shift(c1.insertions, Unshift(c1.deletions, a));
      var b' := Shift(c2.deletions, Unshift(c2.insertions, n));
      InErased(c2.deletions, c1.insertions, b);
      InErased(c1.insertions, c2.deletions, b');
      UnshiftCommutes(c1.insertions, c2.deletions, b);
      UnshiftCommutes(c1.insertions, c2.deletions, b');
      if Stays(c, a, n) {
        UnshiftOrder(c1.insertions + c2.deletions, b, b');
        UnshiftOrder(c1.insertions + c2.deletions, b', b);
        assert Stays(c1, a, b) && Stays(c2, b, n);
      }
      if b0: nat :| Stays(c1, a, b0) && Stays(c2, b0, n) {
        ShiftUndoesUnshift(c1.insertions, b0);
        ShiftUndoesUnshift(c2.deletions, b0);
        assert b0 == b == b';
      }
    }
  }

  /** The rows come where the first changeset and then the second one takes them. */
  lemma JoinedComes(c1: Changes, c2: Changes, c: Changes, a: nat, n: nat)
    requires Joined(c1, c2, c)
    ensures Comes(c, a, n) <==> exists b :: Comes(c1, a, b) && Comes(c2, b, n)
  {
    hide Stays;
    JoinedStays(c1, c2, c, a, n);
    if b :| Comes(c1, a, b) && Comes(c2, b, n) {
      assert Stays(c1, a, b) || Move(a, b) in c1.moves;
    }
    if Stays(c, a, n) {
      var b :| Stays(c1, a, b) && Stays(c2, b, n);
      assert Comes(c1, a, b) && Comes(c2, b, n);
    } else if b :| Move(a, b) in c1.moves && Comes(c2, b, n) {
      assert Comes(c1, a, b);
    } else if b :| Stays(c1, a, b) && Move(b, n) in c2.moves {
      assert Comes(c1, a, b) && Comes(c2, b, n);
    }
  }

  lemma JoinedMoveEnds(c1: Changes, c2: Changes, c: Changes, a: nat, n: nat)
    requires Proper(c1) && Proper(c2) && Joined(c1, c2, c) && JoinedMove(c1, c2, a, n)
    ensures a in c.deletions && n in c.insertions
  {
    hide Unshift, Shift, Inserted, Erased;
    var x, y := Erased(c2.deletions, c1.insertions), Erased(c1.insertions, c2.deletions);
    InInserted(x, c1.deletions, a);
    InInserted(y, c2.insertions, n);
    if b :| Move(a, b) in c1.moves && Comes(c2, b, n) {
      if Stays(c2, b, n) {
        InErased(c1.insertions, c2.deletions, b);
      }
    } else {
      var b :| Stays(c1, a, b) && Move(b, n) in c2.moves;
      InErased(c2.deletions, c1.insertions, b);
    }
  }

  lemma JoinedProper(c1: Changes, c2: Changes, c: Changes)
    requires Proper(c1) && Proper(c2) && Joined(c1, c2, c)
    ensures Proper(c)
  {
    hide Inserted, Erased, Stays, JoinedMove;
    forall m | m in c.moves
      ensures m.from in c.deletions && m.to in c.insertions
    {
      assert m == Move(m.from, m.to);
      JoinedMoveEnds(c1, c2, c, m.from, m.to);
    }
    forall x, y | 0 <= x < y < |c.moves|
      ensures c.moves[x].from != c.moves[y].from && c.moves[x].to != c.moves[y].to
    {
      var m, m' := c.moves[x], c.moves[y];
      JoinedComes(c1, c2, c, m.from, m.to);
      JoinedComes(c1, c2, c, m'.from, m'.to);
      var b :| Comes(c1, m.from, b) && Comes(c2, b, m.to);
      var b' :| Comes(c1, m'.from, b') && Comes(c2, b', m'.to);
      ComesOneToOne(c1, m.from, b, m'.from, b');
      ComesOneToOne(c2, b, m.to, b', m'.to);
    }
  }

  lemma JoinedFits(c1: Changes, c2: Changes, c: Changes, l: nat, m: nat, n: nat)
    requires Joined(c1, c2, c) && Fits(c1, l, m) && Fits(c2, m, n)
    ensures Fits(c, l, n)
  {
    hide Unshift, Shift, Inserted, Erased, JoinedMove;
    var x, y := Erased(c2.deletions, c1.insertions), Erased(c1.insertions, c2.deletions);
    UnshiftInserted(x, c1.deletions, l);
    UnshiftInserted(y, c2.insertions, n);
    UnshiftCommutes(c1.insertions, c2.deletions, m);
    InsertedInRange(c2.deletions, c1.insertions, c1.deletions, m, l);
    InsertedInRange(c1.insertions, c2.deletions, c2.insertions, m, n);
  }

  /** What is left of q below m stays below n where the positions of p are put in. */
  lemma InsertedInRange(q: set<nat>, gone: set<nat>, p: set<nat>, m: nat, n: nat)
    requires (forall o | o in q :: o < m) && (forall o | o in p :: o < n)
    requires Unshift(gone, m) == Unshift(p, n)
    ensures forall o | o in Inserted(Erased(q, gone), p) :: o < n
  {
    hide Unshift, Shift, Inserted;
    forall o | o in Inserted(Erased(q, gone), p)
      ensures o < n
    {
      InInserted(Erased(q, gone), p, o);
      if o !in p {
        var b :| b in q && b !in gone && Unshift(gone, b) == Unshift(p, o);
        UnshiftClimbs(gone, b, m);
        if n <= o {
          UnshiftClimbs(p, n, o);
        }
      }
    }
  }

  // ---- Moves that are none ----------------------------------------------------------------------

  /** The row stands where it would stand without the move. */
  predicate Stale(c: Changes, m: Move) {
    Unshift(c.deletions, m.from) == Unshift(c.insertions, m.to)
  }

  ghost predicate NoneStale(c: Changes) {
    forall m | m in c.moves :: !Stale(c, m)
  }

  /** The changeset without a move: its row is not deleted and inserted any more. */
  function Unmoved(c: Changes, x: nat): Changes
    requires x < |c.moves|
  {
    c.(deletions := c.deletions - {c.moves[x].from}, insertions := c.insertions - {c.moves[x].to},
       moves := Without(c.moves, x))
  }

  lemma InWithout<T>(s: seq<T>, x: nat, e: T)
    requires x < |s|
    ensures e in s <==> e == s[x] || e in Without(s, x)
    ensures e in Without(s, x) ==> exists y :: 0 <= y < |s| && y != x && s[y] == e
  {
    if e in s {
      var y :| 0 <= y < |s| && s[y] == e;
      assert y < x ==> Without(s, x)[y] == e;
      assert y > x ==> Without(s, x)[y - 1] == e;
    }
    if e in Without(s, x) {
      var y :| 0 <= y < |s| - 1 && Without(s, x)[y] == e;
      assert s[if y < x then y else y + 1] == e;
    }
  }

  /** Taking back a stale move leaves every row where it was. */
  lemma UnmovedComes(c: Changes, x: nat, b: nat, n: nat)
    requires Proper(c) && x < |c.moves| && Stale(c, c.moves[x])
    ensures Comes(Unmoved(c, x), b, n) <==> Comes(c, b, n)
  {
    hide Unshift, Without, OneToOne;
    var f, t := c.moves[x].from, c.moves[x].to;
    InWithout(c.moves, x, Move(b, n));
    UnshiftWithout(c.deletions, f, b);
    UnshiftWithout(c.insertions, t, n);
    UnshiftClimbs(c.deletions, if f < b then f else b, if f < b then b else f);
    UnshiftClimbs(c.insertions, if t < n then t else n, if t < n then n else t);
  }

  lemma UnmovedProper(c: Changes, x: nat)
    requires Proper(c) && x < |c.moves|
    ensures Proper(Unmoved(c, x))
  {
    hide Unshift;
    forall m | m in Without(c.moves, x)
      ensures m.from in c.deletions - {c.moves[x].from} && m.to in c.insertions - {c.moves[x].to}
    {
      InWithout(c.moves, x, m);
    }
  }

  lemma UnmovedFits(c: Changes, x: nat, l: nat, n: nat)
    requires Proper(c) && x < |c.moves| && Fits(c, l, n)
    ensures Fits(Unmoved(c, x), l, n)
  {
    hide Unshift, Without, OneToOne;
    UnshiftWithout(c.deletions, c.moves[x].from, l);
    UnshiftWithout(c.insertions, c.moves[x].to, n);
  }

  /** Taking back a stale move makes no other move stale. */
  lemma UnmovedStale(c: Changes, x: nat, m: Move)
    requires Proper(c) && x < |c.moves| && Stale(c, c.moves[x]) && m in Without(c.moves, x) && !Stale(c, m)
    ensures !Stale(Unmoved(c, x), m)
  {
    hide Unshift, Without;
    var f, t := c.moves[x].from, c.moves[x].to;
    UnshiftWithout(c.deletions, f, m.from);
    UnshiftWithout(c.insertions, t, m.to);
    UnshiftClimbs(c.deletions, if f < m.from then f else m.from, if f < m.from then m.from else f);
    UnshiftClimbs(c.insertions, if t < m.to then t else m.to, if t < m.to then m.to else t);
  }

  /** A changeset cleaned of its stale moves says the same of every row, and all moves left are moves. */
  ghost predicate CleanOf(c: Changes, c': Changes) {
    && SameRows(c, c') && NoneStale(c')
    && c'.modifications == c.modifications && (forall m | m in c'.moves :: m in c.moves)
  }

  ghost predicate SameRows(c: Changes, c': Changes) {
    && Proper(c')
    && (forall b, n :: Comes(c', b, n) <==> Comes(c, b, n))
    && (forall l, n | Fits(c, l, n) :: Fits(c', l, n))
  }

  lemma UnmovedSame(c0: Changes, c: Changes, x: nat)
    requires Proper(c) && x < |c.moves| && Stale(c, c.moves[x]) && SameRows(c0, c)
    ensures SameRows(c0, Unmoved(c, x))
  {
    hide Comes, Fits, Proper, Unmoved, Stale;
    UnmovedProper(c, x);
    forall b, n
      ensures Comes(Unmoved(c, x), b, n) <==> Comes(c, b, n)
    {
      UnmovedComes(c, x, b, n);
    }
    forall l, n | Fits(c, l, n)
      ensures Fits(Unmoved(c, x), l, n)
    {
      UnmovedFits(c, x, l, n);
    }
  }

  // ---- The moves of a merge ---------------------------------------------------------------------

  /** The old moves, taken where the new changeset takes their rows. */
  ghost predicate Retargeted(moves: seq<Move>, c2: Changes, kept: seq<Move>) {
    && (forall a, n :: Move(a, n) in kept <==> exists b :: Move(a, b) in moves && Comes(c2, b, n))
    && (forall x, y | 0 <= x < y < |kept| :: kept[x].from != kept[y].from)
  }

  ghost predicate EndsAt(moves: seq<Move>, b: nat) {
    exists a :: Move(a, b) in moves
  }

  /** The new moves of rows that had not moved before. */
  ghost predicate NotChained(moves: seq<Move>, c2: Changes, rest: seq<Move>) {
    && OneToOne(rest)
    && forall m :: m in rest <==> m in c2.moves && !EndsAt(moves, m.from)
  }

  /** The modifications with those of rows that moved again. */
  ghost predicate ChainedModified(moves: seq<Move>, c2: Changes, old1: set<nat>, more: set<nat>) {
    forall n :: n in more <==>
      n in c2.modifications || exists b :: Move(b, n) in c2.moves && b in old1 && EndsAt(moves, b)
  }

  lemma EndsAtStep(moves: seq<Move>, i: nat, b: nat)
    requires i < |moves|
    ensures EndsAt(moves[..i + 1], b) <==> EndsAt(moves[..i], b) || moves[i].to == b
    ensures OneToOne(moves) ==> !EndsAt(moves[..i], moves[i].to)
  {
    assert moves[..i + 1] == moves[..i] + [moves[i]];
    if moves[i].to == b {
      assert moves[i] == Move(moves[i].from, b);
    }
  }

  lemma RetargetStep(moves: seq<Move>, i: nat, c2: Changes, kept: seq<Move>, n: nat)
    requires OneToOne(moves) && i < |moves| && Proper(c2) && Comes(c2, moves[i].to, n)
    requires Retargeted(moves[..i], c2, kept)
    ensures Retargeted(moves[..i + 1], c2, kept + [Move(moves[i].from, n)])
  {
    hide Comes, Proper;
    assert moves[..i + 1] == moves[..i] + [moves[i]];
    assert moves[i] == Move(moves[i].from, moves[i].to);
    forall x | 0 <= x < |kept|
      ensures kept[x].from != moves[i].from
    {
      assert Move(kept[x].from, kept[x].to) in kept;
      var b :| Move(kept[x].from, b) in moves[..i] && Comes(c2, b, kept[x].to);
    }
    forall n' | Comes(c2, moves[i].to, n')
      ensures n' == n
    {
      ComesOneToOne(c2, moves[i].to, n, moves[i].to, n');
    }
  }

  lemma RetargetGone(moves: seq<Move>, i: nat, c2: Changes, kept: seq<Move>)
    requires i < |moves| && Retargeted(moves[..i], c2, kept)
    requires forall n :: !Comes(c2, moves[i].to, n)
    ensures Retargeted(moves[..i + 1], c2, kept)
  {
    hide Comes;
    assert moves[..i + 1] == moves[..i] + [moves[i]];
  }

  /** Move the last of the others into the place of the one taken out. */
  function SwapOut(moves: seq<Move>, x: nat): seq<Move>
    requires x < |moves|
  {
    moves[x := moves[|moves| - 1]][..|moves| - 1]
  }

  lemma SwappedOut(moves: seq<Move>, x: nat)
    requires OneToOne(moves) && x < |moves|
    ensures OneToOne(SwapOut(moves, x))
    ensures forall m :: m in SwapOut(moves, x) <==> m in moves && m != moves[x]
  {
    var most := SwapOut(moves, x);
    forall m | m in moves && m != moves[x]
      ensures m in most
    {
      var y :| 0 <= y < |moves| && moves[y] == m;
      assert most[if y == |moves| - 1 then x else y] == m;
    }
    forall m | m in most
      ensures m in moves && m != moves[x]
    {
      var y :| 0 <= y < |most| && most[y] == m;
      assert m == moves[if y == x then |moves| - 1 else y];
    }
  }

  method FindFrom(moves: seq<Move>, b: nat) returns (x: nat)
    ensures x <= |moves| && (x < |moves| ==> moves[x].from == b)
    ensures x == |moves| ==> forall m | m in moves :: m.from != b
  {
    x := 0;
    while x < |moves| && moves[x].from != b
      invariant 0 <= x <= |moves| && forall y | 0 <= y < x :: moves[y].from != b
    {
      x := x + 1;
    }
  }

  /** Update the moves of the first changeset, and take the moves of the second that continue them out of it. */
  method UpdateOldMoves(moves: seq<Move>, modifications: IndexSet, ghost c2: Changes, cDeletions: IndexSet,
                        cInsertions: IndexSet, cModifications: IndexSet, cMoves: seq<Move>)
    returns (kept: seq<Move>, rest: seq<Move>, more: IndexSet)
    requires OneToOne(moves) && Proper(c2)
    requires Ascending(cDeletions) && Ascending(cInsertions) && Ascending(cModifications)
    requires c2 == Changes(Members(cDeletions), Members(cInsertions), Members(cModifications), cMoves)
    ensures Retargeted(moves, c2, kept) && NotChained(moves, c2, rest)
    ensures Ascending(more) && ChainedModified(moves, c2, Members(modifications), Members(more))
  {
    hide OneToOne, Ascending, Retargeted, NotChained, ChainedModified, Comes, Unshift, Shift, EndsAt;
    kept, rest, more := [], cMoves, cModifications;
    UpdateStart(c2, Members(modifications));
    var i := 0;
    assert moves[..0] == [];
    while i < |moves|
      invariant 0 <= i <= |moves|
      invariant Retargeted(moves[..i], c2, kept) && NotChained(moves[..i], c2, rest)
      invariant Ascending(more) && ChainedModified(moves[..i], c2, Members(modifications), Members(more))
    {
      var old1 := moves[i];
      var x := FindFrom(rest, old1.to);
      ChainedStep(moves, i, c2, rest, x, Members(modifications), Members(more));
      if x < |rest| {
        var again := rest[x];
        if again.from in modifications {
          more := Add(more, again.to);
        }
        RetargetStep(moves, i, c2, kept, again.to);
        kept := kept + [Move(old1.from, again.to)];
        rest := SwapOut(rest, x);
      } else if old1.to in cDeletions {
        RetargetGone(moves, i, c2, kept);
      } else {
        var unshifted := UnshiftIndex(cDeletions, old1.to);
        var n := ShiftIndex(cInsertions, unshifted);
        ShiftedComes(c2, old1.to);
        RetargetStep(moves, i, c2, kept, n);
        kept := kept + [Move(old1.from, n)];
      }
      i := i + 1;
    }
    assert moves[..i] == moves;
  }

  lemma UpdateStart(c2: Changes, old1: set<nat>)
    requires Proper(c2)
    ensures Retargeted([], c2, []) && NotChained([], c2, c2.moves) && ChainedModified([], c2, old1, c2.modifications)
  {
    hide Comes;
  }

  lemma ShiftedComes(c: Changes, b: nat)
    ensures b !in c.deletions ==> Comes(c, b, Shift(c.insertions, Unshift(c.deletions, b)))
  {
  }

  /** A row that moved before, and moves again or not. */
  lemma ChainedStep(moves: seq<Move>, i: nat, c2: Changes, rest: seq<Move>, x: nat, old1: set<nat>, more: set<nat>)
    requires OneToOne(moves) && i < |moves| && Proper(c2) && NotChained(moves[..i], c2, rest) && x <= |rest|
    requires if x < |rest| then rest[x].from == moves[i].to else forall m | m in rest :: m.from != moves[i].to
    requires ChainedModified(moves[..i], c2, old1, more)
    ensures x < |rest| ==>
              && Comes(c2, moves[i].to, rest[x].to)
              && NotChained(moves[..i + 1], c2, SwapOut(rest, x))
              && ChainedModified(moves[..i + 1], c2, old1, if moves[i].to in old1 then more + {rest[x].to} else more)
    ensures x == |rest| ==>
              && (forall n :: Move(moves[i].to, n) !in c2.moves)
              && (moves[i].to in c2.deletions ==> forall n :: !Comes(c2, moves[i].to, n))
              && NotChained(moves[..i + 1], c2, rest)
              && ChainedModified(moves[..i + 1], c2, old1, more)
  {
    hide OneToOne, Unshift, EndsAt;
    var b := moves[i].to;
    forall b'
      ensures EndsAt(moves[..i + 1], b') <==> EndsAt(moves[..i], b') || b' == b
    {
      EndsAtStep(moves, i, b');
    }
    EndsAtStep(moves, i, b);
    if x < |rest| {
      SwappedOut(rest, x);
      assert rest[x] in rest && rest[x] == Move(b, rest[x].to);
      forall m | m in c2.moves && m.from == b
        ensures m == rest[x]
      {
        MoveOneToOne(c2.moves, m, rest[x]);
      }
    } else {
      assert forall n :: Move(b, n) !in c2.moves;
    }
  }

  method DropInserted(moves: seq<Move>, insertions: IndexSet) returns (left: seq<Move>)
    requires OneToOne(moves)
    ensures OneToOne(left) && forall m :: m in left <==> m in moves && m.from !in Members(insertions)
  {
    left := [];
    var i := 0;
    while i < |moves|
      invariant 0 <= i <= |moves| && OneToOne(left)
      invariant forall m :: m in left <==> m in moves[..i] && m.from !in Members(insertions)
    {
      DropStep(moves, i, left);
      if moves[i].from !in insertions {
        left := left + [moves[i]];
      }
      i := i + 1;
    }
    assert moves[..i] == moves;
  }

  lemma DropStep(moves: seq<Move>, i: nat, left: seq<Move>)
    requires OneToOne(moves) && i < |moves| && OneToOne(left) && forall m | m in left :: m in moves[..i]
    ensures OneToOne(left + [moves[i]]) && moves[..i + 1] == moves[..i] + [moves[i]]
  {
    forall x | 0 <= x < |left|
      ensures left[x].from != moves[i].from && left[x].to != moves[i].to
    {
      assert left[x] in left;
      var y :| 0 <= y < i && moves[..i][y] == left[x];
    }
  }

  method CarryModifications(moves: seq<Move>, modifications: IndexSet, cModifications: IndexSet)
    returns (more: IndexSet)
    requires Ascending(cModifications)
    ensures Ascending(more)
    ensures forall n :: n in Members(more) <==>
              n in Members(cModifications) || exists b :: Move(b, n) in moves && b in Members(modifications)
  {
    hide Ascending;
    more := cModifications;
    var i := 0;
    while i < |moves|
      invariant 0 <= i <= |moves| && Ascending(more)
      invariant forall n :: n in Members(more) <==>
                  n in Members(cModifications) || exists b :: Move(b, n) in moves[..i] && b in Members(modifications)
    {
      assert moves[..i + 1] == moves[..i] + [moves[i]] && moves[i] == Move(moves[i].from, moves[i].to);
      if moves[i].from in modifications {
        more := Add(more, moves[i].to);
      }
      i := i + 1;
    }
    assert moves[..i] == moves;
  }

  /** The moves with their sources as positions of the time before the first changeset. */
  ghost predicate Resourced(c1: Changes, moves: seq<Move>, news: seq<Move>) {
    && |news| == |moves|
    && forall x | 0 <= x < |moves| ::
         news[x] == Move(Shift(c1.deletions, Unshift(c1.insertions, moves[x].from)), moves[x].to)
  }

  method UpdateSources(ghost c1: Changes, moves: seq<Move>, deletions: IndexSet, insertions: IndexSet)
    returns (news: seq<Move>)
    requires Ascending(deletions) && Ascending(insertions)
    requires c1.deletions == Members(deletions) && c1.insertions == Members(insertions)
    ensures Resourced(c1, moves, news)
  {
    hide Unshift, Shift, Ascending, Members;
    news := [];
    while |news| < |moves|
      invariant |news| <= |moves| && Resourced(c1, moves[..|news|], news)
    {
      var unshifted := UnshiftIndex(insertions, moves[|news|].from);
      var from := ShiftIndex(deletions, unshifted);
      assert moves[..|news| + 1] == moves[..|news|] + [moves[|news|]];
      news := news + [Move(from, moves[|news|].to)];
    }
    assert moves[..|news|] == moves;
  }

  lemma SameSources(c1: Changes, moves: seq<Move>)
    requires c1.deletions == {} && c1.insertions == {}
    ensures Resourced(c1, moves, moves)
  {
    hide Unshift, Shift;
    forall n: nat
      ensures Shift({}, Unshift({}, n)) == n
    {
      ShiftUndoesUnshift({}, n);
    }
  }

  lemma NothingToUpdate(c1: Changes, c2: Changes)
    requires Proper(c1) && c2.deletions == {} && c2.insertions == {} && c2.moves == []
    ensures Retargeted(c1.moves, c2, c1.moves) && NotChained(c1.moves, c2, [])
    ensures ChainedModified(c1.moves, c2, c1.modifications, c2.modifications)
  {
    hide Unshift;
    forall b, n
      ensures Comes(c2, b, n) <==> b == n
    {
      NoShift(b);
      NoShift(n);
    }
  }

  /** The new moves of rows that the first changeset had not inserted. */
  ghost predicate NewMoves(c1: Changes, c2: Changes, left: seq<Move>) {
    && OneToOne(left)
    && forall m :: m in left <==> m in c2.moves && m.from !in c1.insertions
  }

  lemma ResourcedFrom(c1: Changes, c2: Changes, left: seq<Move>, news: seq<Move>, a: nat, n: nat)
    requires NewMoves(c1, c2, left) && Resourced(c1, left, news)
    ensures Move(a, n) in news <==> exists b :: Stays(c1, a, b) && Move(b, n) in c2.moves
  {
    hide Unshift, Shift, OneToOne;
    if Move(a, n) in news {
      var x :| 0 <= x < |news| && news[x] == Move(a, n);
      assert left[x] in left && left[x] == Move(left[x].from, n);
      assert Stays(c1, a, left[x].from);
    }
    if b :| Stays(c1, a, b) && Move(b, n) in c2.moves {
      assert Move(b, n) in left;
      var x :| 0 <= x < |left| && left[x] == Move(b, n);
      ShiftUndoesUnshift(c1.deletions, a);
      assert news[x] == Move(a, n);
    }
  }

  /** The moves that are left of both changesets are the joined moves, each once. */
  lemma MovesJoin(c1: Changes, c2: Changes, kept: seq<Move>, left: seq<Move>, news: seq<Move>)
    requires Proper(c1) && Proper(c2) && Retargeted(c1.moves, c2, kept)
    requires NewMoves(c1, c2, left) && Resourced(c1, left, news)
    ensures forall a, n :: Move(a, n) in kept + news <==> JoinedMove(c1, c2, a, n)
    ensures forall x, y | 0 <= x < y < |kept + news| :: (kept + news)[x] != (kept + news)[y]
  {
    hide Unshift, Shift, Comes, Stays;
    forall a, n
      ensures Move(a, n) in kept + news <==> JoinedMove(c1, c2, a, n)
    {
      ResourcedFrom(c1, c2, left, news, a, n);
    }
    forall x, y | 0 <= x < |kept| && 0 <= y < |news|
      ensures kept[x] != news[y]
    {
      assert Move(kept[x].from, kept[x].to) in kept;
      assert Move(news[y].from, news[y].to) in news;
      ResourcedFrom(c1, c2, left, news, news[y].from, news[y].to);
      var b :| Stays(c1, news[y].from, b) && Move(b, news[y].to) in c2.moves;
      StaysNotDeleted(c1, news[y].from, b);
    }
    forall x, y | 0 <= x < y < |news|
      ensures news[x] != news[y]
    {
      assert left[x].to != left[y].to;
    }
  }

  lemma StaysNotDeleted(c: Changes, b: nat, n: nat)
    requires Stays(c, b, n)
    ensures b !in c.deletions && n !in c.insertions
  {
  }

  /** The row at n is modified afterwards: by the second changeset, or by the first unless the row was inserted by
      it and is moved by the second.
   */
  ghost predicate Carried(c1: Changes, c2: Changes, n: nat) {
    || n in c2.modifications
    || exists b :: b in c1.modifications && Comes(c2, b, n) && (Stays(c2, b, n) || exists a :: Comes(c1, a, b))
  }

  /** Modified rows that stay, together with the modified rows that moved, are the ones carried along. */
  lemma ModificationsJoin(c1: Changes, c2: Changes, left: seq<Move>, chained: set<nat>, more: set<nat>, n: nat)
    requires Proper(c1) && Proper(c2) && NewMoves(c1, c2, left)
    requires ChainedModified(c1.moves, c2, c1.modifications, chained)
    requires n in more <==> n in chained || exists b :: Move(b, n) in left && b in c1.modifications
    ensures n in Shifted(Erased(c1.modifications, c2.deletions), c2.insertions) + more <==> Carried(c1, c2, n)
  {
    hide Unshift, Shift, OneToOne;
    ModifiedStays(c1.modifications, c2, n);
    forall b | b in c1.modifications && Move(b, n) in c2.moves
      ensures (exists a :: Comes(c1, a, b)) <==> EndsAt(c1.moves, b) || Move(b, n) in left
    {
      WasThere(c1, b);
    }
  }

  /** Some row comes to n unless n was inserted and is not the end of a move. */
  lemma WasThere(c: Changes, n: nat)
    ensures (exists b :: Comes(c, b, n)) <==> n !in c.insertions || EndsAt(c.moves, n)
  {
    if n !in c.insertions {
      assert Comes(c, Shift(c.deletions, Unshift(c.insertions, n)), n);
    }
    if b :| Move(b, n) in c.moves {
      assert Comes(c, b, n);
    }
  }

  lemma ModifiedStays(modifications: set<nat>, c: Changes, n: nat)
    ensures n in Shifted(Erased(modifications, c.deletions), c.insertions)
       <==> exists b :: b in modifications && Stays(c, b, n)
  {
    hide Unshift, Shift, Shifted;
    InShifted(Erased(modifications, c.deletions), c.insertions, n);
  }

  // ---- The laws of merging ----------------------------------------------------------------------

  predicate Nothing(c: Changes) {
    c.deletions == {} && c.insertions == {} && c.modifications == {} && c.moves == []
  }

  /** The merge of two changesets, before and after stale moves are cleaned up. */
  ghost predicate MergesTo(c1: Changes, c2: Changes, joined: Changes, c: Changes) {
    if Nothing(c2) then c == c1
    else if Nothing(c1) then c == c2
    else
      && Joined(c1, c2, joined) && (forall n :: n in joined.modifications <==> Carried(c1, c2, n))
      && CleanOf(joined, c)
  }

  lemma NothingStays(c: Changes)
    requires Nothing(c)
    ensures Proper(c) && (forall b, n :: Comes(c, b, n) <==> b == n) && (forall l, n :: Fits(c, l, n) <==> l == n)
  {
    hide Unshift;
    forall n: nat
      ensures Unshift({}, n) == n
    {
      NoShift(n);
    }
  }

  /** After a merge the rows come where the first changeset and then the second one takes them. */
  lemma MergeComposes(c1: Changes, c2: Changes, joined: Changes, c: Changes, a: nat, n: nat)
    requires Proper(c1) && Proper(c2) && MergesTo(c1, c2, joined, c)
    ensures Proper(c)
    ensures Comes(c, a, n) <==> exists b :: Comes(c1, a, b) && Comes(c2, b, n)
  {
    hide Comes, Proper, Joined;
    if Nothing(c2) {
      NothingStays(c2);
      assert Comes(c1, a, n) ==> Comes(c2, n, n);
    } else if Nothing(c1) {
      NothingStays(c1);
      assert Comes(c2, a, n) ==> Comes(c1, a, a);
    } else {
      JoinedComes(c1, c2, joined, a, n);
    }
  }

  /** If the first changeset leads from one content to a second and the other one from there to a third, their merge
      leads from the first content to the third.
   */
  lemma MergeLeads(c1: Changes, c2: Changes, joined: Changes, c: Changes, first: Rows, second: Rows, third: Rows)
    requires Proper(c1) && Proper(c2) && MergesTo(c1, c2, joined, c)
    requires Leads(first, second, c1) && Leads(second, third, c2)
    ensures Leads(first, third, c)
    ensures NoneStale(c1) && NoneStale(c2) ==> NoneStale(c)
  {
    hide Comes, Proper, Joined;
    MergeFits(c1, c2, joined, c, |first|, |second|, |third|);
    forall a: nat, n: nat | Comes(c, a, n) && a < |first| && n < |third|
      ensures first[a] == third[n]
    {
      MergeComposes(c1, c2, joined, c, a, n);
      var b :| Comes(c1, a, b) && Comes(c2, b, n);
      ComesInRange(c1, a, b, |first|, |second|);
    }
  }

  lemma MergeFits(c1: Changes, c2: Changes, joined: Changes, c: Changes, l: nat, m: nat, n: nat)
    requires MergesTo(c1, c2, joined, c) && Fits(c1, l, m) && Fits(c2, m, n)
    ensures Fits(c, l, n)
  {
    hide Comes, Proper, Joined, Fits;
    if Nothing(c2) {
      NothingStays(c2);
    } else if Nothing(c1) {
      NothingStays(c1);
    } else {
      JoinedFits(c1, c2, joined, l, m, n);
    }
  }

  lemma ComesInRange(c: Changes, b: nat, n: nat, l: nat, m: nat)
    requires Proper(c) && Fits(c, l, m) && Comes(c, b, n) && b < l
    ensures n < m
  {
    hide Unshift, OneToOne;
    if Stays(c, b, n) && m <= n {
      UnshiftClimbs(c.deletions, b, l);
      UnshiftClimbs(c.insertions, m, n);
    }
  }

  /** A row that the merge does not report as inserted is modified exactly if either changeset modified it. */
  lemma MergeModifies(c1: Changes, c2: Changes, joined: Changes, c: Changes, n: nat)
    requires Proper(c1) && Proper(c2) && MergesTo(c1, c2, joined, c)
    requires n !in c.insertions
    ensures n in c.modifications <==> n in c2.modifications || exists b :: b in c1.modifications && Comes(c2, b, n)
  {
    hide Comes, Proper, Joined;
    if Nothing(c2) {
      NothingStays(c2);
    } else if !Nothing(c1) {
      WasThere(c, n);
      var a :| Comes(c, a, n);
      MergeComposes(c1, c2, joined, c, a, n);
      var b0 :| Comes(c1, a, b0) && Comes(c2, b0, n);
      forall b | Comes(c2, b, n)
        ensures b == b0
      {
        ComesOneToOne(c2, b, n, b0, n);
      }
    }
  }

  /** A modification is lost exactly if its row was inserted by the first changeset and is moved by the second. */
  lemma ModificationLost(c1: Changes, c2: Changes, joined: Changes, c: Changes, b: nat, n: nat)
    requires Proper(c1) && Proper(c2) && MergesTo(c1, c2, joined, c)
    requires b in c1.modifications && Comes(c2, b, n)
    ensures n !in c.modifications <==>
              !Nothing(c2) && n !in c2.modifications && Move(b, n) in c2.moves
              && b in c1.insertions && !EndsAt(c1.moves, b)
  {
    hide Proper, Joined, Unshift;
    if Nothing(c2) {
      NothingStays(c2);
    } else {
      assert !Nothing(c1);
      WasThere(c1, b);
      forall b' | Comes(c2, b', n)
        ensures b' == b
      {
        ComesOneToOne(c2, b', n, b, n);
      }
      if Move(b, n) in c2.moves {
        ProperMove(c2, b, n);
      }
    }
  }

  lemma ProperMove(c: Changes, b: nat, n: nat)
    requires Proper(c) && Move(b, n) in c.moves
    ensures b in c.deletions && n in c.insertions && !Stays(c, b, n)
  {
  }

  /** It makes no difference to the rows in which order three changesets are merged. */
  lemma MergeAssociates(c1: Changes, c2: Changes, c3: Changes, j12: Changes, c12: Changes, j23: Changes, c23: Changes,
                        jl: Changes, left: Changes, jr: Changes, right: Changes, a: nat, n: nat)
    requires Proper(c1) && Proper(c2) && Proper(c3)
    requires MergesTo(c1, c2, j12, c12) && MergesTo(c12, c3, jl, left)
    requires MergesTo(c2, c3, j23, c23) && MergesTo(c1, c23, jr, right)
    ensures Comes(left, a, n) <==> Comes(right, a, n)
  {
    hide Comes, MergesTo, Proper;
    MergeComposes(c1, c2, j12, c12, a, a);
    MergeComposes(c2, c3, j23, c23, a, a);
    MergeComposes(c12, c3, jl, left, a, n);
    MergeComposes(c1, c23, jr, right, a, n);
    if Comes(left, a, n) {
      var b' :| Comes(c12, a, b') && Comes(c3, b', n);
      MergeComposes(c1, c2, j12, c12, a, b');
      var b :| Comes(c1, a, b) && Comes(c2, b, b');
      MergeComposes(c2, c3, j23, c23, b, n);
    }
    if Comes(right, a, n) {
      var b :| Comes(c1, a, b) && Comes(c23, b, n);
      MergeComposes(c2, c3, j23, c23, b, n);
      var b' :| Comes(c2, b, b') && Comes(c3, b', n);
      MergeComposes(c1, c2, j12, c12, a, b');
    }
  }

  // ---- Changes recorded one at a time -----------------------------------------------------------

  /** As Leads, for contents in which a modified row may have been replaced. */
  ghost predicate Tracks(prev: Rows, next: Rows, c: Changes) {
    && Fits(c, |prev|, |next|)
    && (forall b: nat, n: nat | Comes(c, b, n) && b < |prev| && n < |next| ::
          n in c.modifications || prev[b] == next[n])
  }

  /** A single change added to the others. Every modification goes with its row. */
  ghost predicate Recorded(c1: Changes, c2: Changes, c: Changes) {
    && Joined(c1, c2, c)
    && (forall n :: n in c.modifications <==>
          n in c2.modifications || exists b :: b in c1.modifications && Comes(c2, b, n))
  }

  lemma RecordTracks(c1: Changes, c2: Changes, c: Changes, first: Rows, second: Rows, third: Rows)
    requires Proper(c1) && Proper(c2) && Recorded(c1, c2, c)
    requires Tracks(first, second, c1) && Tracks(second, third, c2)
    ensures Proper(c) && Tracks(first, third, c)
  {
    hide Comes, Proper, Joined;
    JoinedProper(c1, c2, c);
    JoinedFits(c1, c2, c, |first|, |second|, |third|);
    forall a: nat, n: nat | Comes(c, a, n) && a < |first| && n < |third|
      ensures n in c.modifications || first[a] == third[n]
    {
      JoinedComes(c1, c2, c, a, n);
      var b :| Comes(c1, a, b) && Comes(c2, b, n);
      ComesInRange(c1, a, b, |first|, |second|);
    }
  }

  /** The merge of recorded changesets keeps track as well. */
  lemma MergeTracks(c1: Changes, c2: Changes, joined: Changes, c: Changes, first: Rows, second: Rows, third: Rows)
    requires Proper(c1) && Proper(c2) && MergesTo(c1, c2, joined, c)
    requires Tracks(first, second, c1) && Tracks(second, third, c2)
    ensures Tracks(first, third, c)
  {
    hide Comes, Proper, Joined;
    MergeFits(c1, c2, joined, c, |first|, |second|, |third|);
    forall a: nat, n: nat | Comes(c, a, n) && a < |first| && n < |third|
      ensures n in c.modifications || first[a] == third[n]
    {
      MergeComposes(c1, c2, joined, c, a, n);
      var b :| Comes(c1, a, b) && Comes(c2, b, n);
      ComesInRange(c1, a, b, |first|, |second|);
      if Nothing(c2) {
        NothingStays(c2);
      } else if b in c1.modifications {
        assert Carried(c1, c2, n);
      }
    }
  }

  lemma CleanTracks(c: Changes, c': Changes, prev: Rows, next: Rows)
    requires CleanOf(c, c') && Tracks(prev, next, c)
    ensures Tracks(prev, next, c')
  {
    hide Comes, Proper, Fits;
  }

  // ---- Rows and what is kept --------------------------------------------------------------------

  lemma {:induction false} KeptSize(s: Rows, p: set<nat>, hi: nat)
    requires hi <= |s|
    ensures |Kept(s, p, 0, hi)| == Unshift(p, hi)
    decreases hi
  {
    if hi > 0 {
      KeptSize(s, p, hi - 1);
    }
  }

  /** A kept row is found where its position goes. */
  lemma {:induction false} KeptRow(s: Rows, p: set<nat>, hi: nat, b: nat)
    requires b < hi <= |s| && b !in p
    ensures Unshift(p, b) < |Kept(s, p, 0, hi)| && Kept(s, p, 0, hi)[Unshift(p, b)] == s[b]
    decreases hi
  {
    KeptSize(s, p, hi - 1);
    if b < hi - 1 {
      KeptRow(s, p, hi - 1, b);
    }
  }

  /** A changeset leads from one content to the other exactly if deleting and inserting makes the one of the other, and
      every move has the same row at both ends.
   */
  lemma LeadsIffExplains(prev: Rows, next: Rows, c: Changes)
    requires Proper(c)
    ensures Leads(prev, next, c) <==>
              && Explains(prev, next, c.deletions, c.insertions)
              && forall m | m in c.moves :: m.from < |prev| && m.to < |next| && prev[m.from] == next[m.to]
  {
    hide Unshift, Kept, OneToOne;
    KeptSize(prev, c.deletions, |prev|);
    KeptSize(next, c.insertions, |next|);
    var kept, kept' := Kept(prev, c.deletions, 0, |prev|), Kept(next, c.insertions, 0, |next|);
    if Fits(c, |prev|, |next|) {
      if Leads(prev, next, c) {
        forall k | 0 <= k < |kept|
          ensures kept[k] == kept'[k]
        {
          KeptComes(prev, next, c, k);
        }
        forall m | m in c.moves
          ensures m.from < |prev| && m.to < |next| && prev[m.from] == next[m.to]
        {
          assert Comes(c, m.from, m.to);
        }
      }
      forall b: nat, n: nat | Stays(c, b, n) && b < |prev| && n < |next|
        ensures kept == kept' ==> prev[b] == next[n]
      {
        KeptRow(prev, c.deletions, |prev|, b);
        KeptRow(next, c.insertions, |next|, n);
      }
    }
  }

  lemma KeptComes(prev: Rows, next: Rows, c: Changes, k: nat)
    requires Leads(prev, next, c) && k < |Kept(prev, c.deletions, 0, |prev|)|
    ensures k < |Kept(next, c.insertions, 0, |next|)|
    ensures Kept(prev, c.deletions, 0, |prev|)[k] == Kept(next, c.insertions, 0, |next|)[k]
  {
    hide Unshift, Shift, Kept;
    KeptSize(prev, c.deletions, |prev|);
    KeptSize(next, c.insertions, |next|);
    var b, n := Shift(c.deletions, k), Shift(c.insertions, k);
    if |prev| <= b {
      UnshiftClimbs(c.deletions, |prev|, b);
    }
    if |next| <= n {
      UnshiftClimbs(c.insertions, |next|, n);
    }
    KeptRow(prev, c.deletions, |prev|, b);
    KeptRow(next, c.insertions, |next|, n);
    assert Comes(c, b, n);
  }

  // ---- The builder ------------------------------------------------------------------------------

  class Builder {
    var deletions: IndexSet
    var insertions: IndexSet
    var modifications: IndexSet
    var moves: seq<Move>

    ghost function Value(): Changes
      reads this
    {
      Changes(Members(deletions), Members(insertions), Members(modifications), moves)
    }

    ghost predicate Valid()
      reads this
    {
      Ascending(deletions) && Ascending(insertions) && Ascending(modifications) && Proper(Value())
    }

    constructor (deletions: IndexSet, insertions: IndexSet, modifications: IndexSet, moves: seq<Move>)
      requires Ascending(deletions) && Ascending(insertions) && Ascending(modifications) && OneToOne(moves)
      ensures Valid() && this.moves == moves && this.modifications == modifications
      ensures forall p :: p in Members(this.deletions) <==> p in deletions || exists m :: m in moves && m.from == p
      ensures forall p :: p in Members(this.insertions) <==> p in insertions || exists m :: m in moves && m.to == p
    {
      this.deletions, this.insertions, this.modifications, this.moves := deletions, insertions, modifications, moves;
      new;
      hide Ascending, OneToOne;
      var i := 0;
      while i < |moves|
        modifies this`deletions, this`insertions
        invariant 0 <= i <= |moves| && Ascending(this.deletions) && Ascending(this.insertions)
        invariant forall p :: p in Members(this.deletions) <==>
                    p in deletions || exists m :: m in moves[..i] && m.from == p
        invariant forall p :: p in Members(this.insertions) <==>
                    p in insertions || exists m :: m in moves[..i] && m.to == p
      {
        assert moves[..i + 1] == moves[..i] + [moves[i]];
        this.deletions := Add(this.deletions, moves[i].from);
        this.insertions := Add(this.insertions, moves[i].to);
        i := i + 1;
      }
      assert moves[..i] == moves;
    }

    predicate Empty()
      reads this
    {
      deletions == [] && insertions == [] && modifications == [] && moves == []
    }

    /** Drop the moves whose rows stand where they would stand without them. */
    method CleanUpStaleMoves()
      requires Valid()
      modifies this`deletions, this`insertions, this`moves
      ensures Valid() && CleanOf(old(Value()), Value())
    {
      hide Ascending, Unshift, SameRows, Proper, Members;
      ghost var c0, c := Value(), Value();
      var left, i := [], 0;
      SameStart(c0);
      assert [] + moves[0..] == moves;
      while i < |moves|
        modifies this`deletions, this`insertions
        invariant 0 <= i <= |moves| && Ascending(deletions) && Ascending(insertions)
        invariant c == Changes(Members(deletions), Members(insertions), Members(modifications), left + moves[i..])
        invariant Proper(c) && SameRows(c0, c)
        invariant forall m | m in left :: m in moves && !Stale(c, m)
      {
        var move := moves[i];
        var from := UnshiftIndex(deletions, move.from);
        var to := UnshiftIndex(insertions, move.to);
        assert left + moves[i..] == left + [move] + moves[i + 1..];
        if from != to {
          left := left + [move];
        } else {
          StaleStep(c0, c, left, move, moves[i + 1..]);
          c := Unmoved(c, |left|);
          deletions := Remove(deletions, move.from);
          insertions := Remove(insertions, move.to);
        }
        i := i + 1;
      }
      assert left + moves[i..] == left;
      moves := left;
    }

    /** The moves of both changesets, and the modifications of the later one with those of the rows it moved. */
    method MergeMoves(c: Builder) returns (all: seq<Move>, more: IndexSet)
      requires Valid() && c.Valid()
      ensures MovesOfBoth(Value(), c.Value(), all)
      ensures Ascending(more) && ModificationsOfBoth(Value(), c.Value(), Members(more))
    {
      hide Ascending, Unshift, Shift, Proper, OneToOne, MovesOfBoth, ModificationsOfBoth, Members;
      hide Retargeted, NotChained, ChainedModified, NewMoves, Resourced;
      ghost var c1, c2 := Value(), c.Value();
      ProperMoves(c1);
      ProperMoves(c2);
      NoMembers(deletions);
      NoMembers(insertions);
      NoMembers(c.deletions);
      NoMembers(c.insertions);
      var kept, rest;
      kept, rest, more := moves, c.moves, c.modifications;
      if c.moves != [] || c.deletions != [] || c.insertions != [] {
        kept, rest, more :=
          UpdateOldMoves(moves, modifications, c2, c.deletions, c.insertions, c.modifications, c.moves);
      } else {
        NothingToUpdate(c1, c2);
      }
      RestIsOneToOne(c1, c2, rest);
      var left := rest;
      if insertions != [] && rest != [] {
        left := DropInserted(rest, insertions);
      }
      RestIsNew(c1, c2, rest, left);
      ghost var chained := Members(more);
      NoMembers(modifications);
      if modifications != [] && left != [] {
        more := CarryModifications(left, modifications, more);
      }
      ModificationsMerge(c1, c2, left, chained, Members(more));
      var news := left;
      if deletions != [] || insertions != [] {
        news := UpdateSources(c1, left, deletions, insertions);
      } else {
        SameSources(c1, left);
      }
      MovesJoin(c1, c2, kept, left, news);
      all := kept + news;
      MovesMerge(c1, c2, all);
    }

    /** Add the changes of a later changeset, which is used up. */
    method Merge(c: Builder) returns (ghost joined: Changes)
      requires Valid() && c.Valid() && c != this
      modifies this, c
      ensures Valid() && MergesTo(old(Value()), old(c.Value()), joined, Value())
    {
      hide Ascending, Unshift, Shift, Erased, Inserted, Shifted, Proper, Carried, Joined, Members, CleanOf;
      hide MovesOfBoth, ModificationsOfBoth;
      ghost var c1, c2 := Value(), c.Value();
      joined := c1;
      EmptyIsNothing();
      c.EmptyIsNothing();
      if c.Empty() {
        return;
      }
      if Empty() {
        deletions, insertions, modifications, moves := c.deletions, c.insertions, c.modifications, c.moves;
        return;
      }
      var more;
      moves, more := MergeMoves(c);
      deletions := AddShiftedBy(deletions, insertions, c.deletions);
      insertions := EraseAt(insertions, c.deletions);
      insertions := InsertAt(insertions, c.insertions);
      joined := Value();
      BothJoin(c1, c2, joined);
      CleanUpStaleMoves();
      ghost var cleaned := Value();
      modifications := EraseAt(modifications, c.deletions);
      modifications := ShiftForInsertAt(modifications, c.insertions);
      modifications := AddAll(modifications, more);
      JoinedIsMerged(c1, c2, joined, cleaned, Members(modifications), Members(more));
      joined := joined.(modifications := Members(modifications));
      c.deletions, c.insertions, c.modifications, c.moves := [], [], [], [];
    }

    method Modify(index: nat)
      requires Valid()
      modifies this`modifications
      ensures Valid() && Recorded(old(Value()), Replaced(index), Value())
    {
      hide Unshift, Shift, Recorded, Ascending, Members;
      ghost var c1 := Value();
      modifications := Add(modifications, index);
      ReplacedRecorded(c1, index, Value());
    }

    /** Rows are inserted in front of the one at index. */
    method Insert(index: nat, count: nat)
      requires Valid() && count != 0
      modifies this
      ensures Valid() && Recorded(old(Value()), Added(index, count), Value())
    {
      hide Unshift, Shift, Recorded, Ascending, Members, Proper, Inserted, Shifted, Retargeted, OneToOne;
      ghost var c1, c2 := Value(), Added(index, count);
      AddedStays(index, count);
      var block := Block(index, count);
      modifications := ShiftForInsertAt(modifications, block);
      insertions := InsertAt(insertions, block);
      var i := 0;
      ProperMoves(c1);
      RetargetNone(c1.moves, c2);
      while i < |moves|
        modifies this`moves
        invariant 0 <= i <= |moves| == |c1.moves| && moves[i..] == c1.moves[i..]
        invariant Retargeted(c1.moves[..i], c2, moves[..i])
      {
        assert moves[i] == c1.moves[i];
        var to := if moves[i].to >= index then moves[i].to + count else moves[i].to;
        RetargetStep(c1.moves, i, c2, moves[..i], to);
        moves := moves[i := Move(moves[i].from, to)];
        assert moves[..i + 1] == moves[..i] + [Move(c1.moves[i].from, to)];
        i := i + 1;
      }
      assert moves[..i] == moves && c1.moves[..i] == c1.moves;
      AddedRecorded(c1, index, count, Value());
    }

    method Erase(index: nat)
      requires Valid()
      modifies this
      ensures Valid() && Recorded(old(Value()), Gone(index), Value())
    {
      hide Unshift, Shift, Recorded, Ascending, Members, Proper, Inserted, Erased, Retargeted, OneToOne, Comes;
      ghost var c1, c2 := Value(), Gone(index);
      GoneComes(index);
      TakeOne(index);
      modifications := EraseAt(modifications, [index]);
      var inserted := HasIndex(insertions, index);
      var unshifted := UnshiftIndex(insertions, index);
      insertions := EraseAt(insertions, [index]);
      if !inserted {
        unshifted := ShiftIndex(deletions, unshifted);
        deletions := Add(deletions, unshifted);
      }
      var i := 0;
      ghost var done := 0;
      ProperMoves(c1);
      RetargetNone(c1.moves, c2);
      while i < |moves|
        modifies this`moves
        invariant 0 <= i <= |moves| && done <= |c1.moves| && moves[i..] == c1.moves[done..]
        invariant Retargeted(c1.moves[..done], c2, moves[..i])
      {
        assert moves[i] == c1.moves[done] && moves[i + 1..] == c1.moves[done + 1..];
        if moves[i].to == index {
          RetargetGone(c1.moves, done, c2, moves[..i]);
          assert Without(moves, i)[..i] == moves[..i] && Without(moves, i)[i..] == moves[i + 1..];
          moves := Without(moves, i);
        } else {
          var to := if moves[i].to > index then moves[i].to - 1 else moves[i].to;
          RetargetStep(c1.moves, done, c2, moves[..i], to);
          moves := moves[i := Move(moves[i].from, to)];
          assert moves[..i + 1] == moves[..i] + [Move(c1.moves[done].from, to)];
          i := i + 1;
        }
        done := done + 1;
      }
      assert moves[..i] == moves && c1.moves[..done] == c1.moves;
      GoneRecorded(c1, index, Value());
    }

    method MoveRow(from: nat, to: nat)
      requires Valid() && from != to
      modifies this
      ensures Valid() && Recorded(old(Value()), Taken(from, to), Value())
    {
      hide Unshift, Shift, Recorded, Ascending, Members, Proper, Inserted, Erased, Shifted, Retargeted, OneToOne, Comes;
      hide EndsAt;
      ghost var c1, c2 := Value(), Taken(from, to);
      TakenComes(from, to);
      TakeOne(from);
      TakeOne(to);
      var updated, i := false, 0;
      ProperMoves(c1);
      RetargetNone(c1.moves, c2);
      EndsAtNone(c1.moves, from);
      while i < |moves|
        modifies this`moves, this`insertions
        invariant 0 <= i <= |moves| == |c1.moves| && moves[i..] == c1.moves[i..]
        invariant Retargeted(c1.moves[..i], c2, moves[..i]) && (updated <==> EndsAt(c1.moves[..i], from))
        invariant Ascending(insertions)
        invariant Members(insertions) ==
                  if updated then Inserted(Erased(c1.insertions, {from}), {to}) else c1.insertions
      {
        assert moves[i] == c1.moves[i];
        EndsAtStep(c1.moves, i, from);
        var end := moves[i].to;
        if end != from {
          if to <= end < from {
            end := end + 1;
          } else if from < end <= to {
            end := end - 1;
          }
        } else {
          end := to;
          updated := true;
          insertions := EraseAt(insertions, [from]);
          insertions := InsertAt(insertions, [to]);
        }
        RetargetStep(c1.moves, i, c2, moves[..i], end);
        moves := moves[i := Move(moves[i].from, end)];
        assert moves[..i + 1] == moves[..i] + [Move(c1.moves[i].from, end)];
        i := i + 1;
      }
      assert moves[..i] == moves && c1.moves[..i] == c1.moves;
      ghost var kept := moves;
      EndsInserted(c1, from);
      if !updated {
        var inserted := HasIndex(insertions, from);
        var shifted := UnshiftIndex(insertions, from);
        insertions := EraseAt(insertions, [from]);
        insertions := InsertAt(insertions, [to]);
        if !inserted {
          shifted := ShiftIndex(deletions, shifted);
          deletions := Add(deletions, shifted);
          moves := moves + [Move(shifted, to)];
        }
      }
      var modified := HasIndex(modifications, from);
      modifications := EraseAt(modifications, [from]);
      if modified {
        modifications := InsertAt(modifications, [to]);
      } else {
        modifications := ShiftForInsertAt(modifications, [to]);
      }
      TakenRecorded(c1, from, to, kept, Value());
    }

    /** All rows are deleted, of the old content too. */
    method Clear(oldSize: nat, ghost l: nat)
      requires Valid() && Fits(Value(), l, oldSize)
      modifies this
      ensures Valid() && Value() == Emptied(l)
    {
      hide Unshift;
      MembersSize(deletions);
      MembersSize(insertions);
      UnshiftSize(Members(deletions), l);
      UnshiftSize(Members(insertions), oldSize);
      var size := oldSize + |deletions| - |insertions|;
      modifications, insertions, moves := [], [], [];
      deletions := Block(0, size);
      assert Proper(Value());
    }

    /** The rows modified, as positions before and afterwards. Inserted rows are not counted as modified. */
    method Finalize() returns (before: IndexSet, afterwards: IndexSet)
      requires Valid()
      ensures Ascending(before) && Ascending(afterwards)
      ensures forall n :: n in Members(afterwards) <==> n in Members(modifications) && n !in Members(insertions)
      ensures forall b, n | Stays(Value(), b, n) :: b in Members(before) <==> n in Members(afterwards)
      ensures |before| == |afterwards|
    {
      hide Unshift, Shift, Shifted, Erased, Members;
      before := EraseAt(modifications, insertions);
      before := ShiftForInsertAt(before, deletions);
      afterwards := RemoveAll(modifications, insertions);
      FinalModifications(Value(), Members(before), Members(afterwards));
      MembersSize(before);
      MembersSize(afterwards);
    }

    lemma EmptyIsNothing()
      ensures Empty() <==> Nothing(Value())
    {
      assert forall p: IndexSet | p != [] :: p[0] in Members(p);
    }
  }

  lemma SameStart(c: Changes)
    requires Proper(c)
    ensures SameRows(c, c)
  {
  }

  lemma StaleStep(c0: Changes, c: Changes, left: seq<Move>, move: Move, pending: seq<Move>)
    requires Proper(c) && SameRows(c0, c) && c.moves == left + [move] + pending
    requires Stale(c, move) && forall m | m in left :: !Stale(c, m)
    ensures var c' := Unmoved(c, |left|);
            && SameRows(c0, c') && Proper(c') && c'.moves == left + pending
            && forall m | m in left :: !Stale(c', m)
  {
    hide Unshift, SameRows, Proper, Stale;
    UnmovedSame(c0, c, |left|);
    UnmovedProper(c, |left|);
    assert Without(c.moves, |left|) == left + pending;
    forall m | m in left
      ensures !Stale(Unmoved(c, |left|), m)
    {
      UnmovedStale(c, |left|, m);
    }
  }

  lemma ProperMoves(c: Changes)
    requires Proper(c)
    ensures OneToOne(c.moves)
  {
  }

  lemma RestIsOneToOne(c1: Changes, c2: Changes, rest: seq<Move>)
    requires NotChained(c1.moves, c2, rest)
    ensures OneToOne(rest)
  {
  }

  /** What is left of the new moves are those of rows that the first changeset did not insert. */
  lemma RestIsNew(c1: Changes, c2: Changes, rest: seq<Move>, left: seq<Move>)
    requires Proper(c1) && NotChained(c1.moves, c2, rest)
    requires OneToOne(left) && forall m :: m in left <==> m in rest && m.from !in c1.insertions
    ensures NewMoves(c1, c2, left)
  {
    hide OneToOne;
  }

  ghost predicate MovesOfBoth(c1: Changes, c2: Changes, all: seq<Move>) {
    && (forall a, n :: Move(a, n) in all <==> JoinedMove(c1, c2, a, n))
    && (forall x, y | 0 <= x < y < |all| :: all[x] != all[y])
  }

  ghost predicate ModificationsOfBoth(c1: Changes, c2: Changes, more: set<nat>) {
    forall n :: n in Shifted(Erased(c1.modifications, c2.deletions), c2.insertions) + more <==> Carried(c1, c2, n)
  }

  lemma NoMembers(p: IndexSet)
    ensures p == [] <==> Members(p) == {}
  {
    assert p != [] ==> p[0] in Members(p);
  }

  lemma MovesMerge(c1: Changes, c2: Changes, all: seq<Move>)
    requires forall a, n :: Move(a, n) in all <==> JoinedMove(c1, c2, a, n)
    requires forall x, y | 0 <= x < y < |all| :: all[x] != all[y]
    ensures MovesOfBoth(c1, c2, all)
  {
  }

  lemma ModificationsMerge(c1: Changes, c2: Changes, left: seq<Move>, chained: set<nat>, more: set<nat>)
    requires Proper(c1) && Proper(c2) && NewMoves(c1, c2, left)
    requires ChainedModified(c1.moves, c2, c1.modifications, chained)
    requires forall n :: n in more <==> n in chained || exists b :: Move(b, n) in left && b in c1.modifications
    ensures ModificationsOfBoth(c1, c2, more)
  {
    hide Carried, Shifted, Erased, Proper, NewMoves, ChainedModified;
    forall n
      ensures n in Shifted(Erased(c1.modifications, c2.deletions), c2.insertions) + more <==> Carried(c1, c2, n)
    {
      ModificationsJoin(c1, c2, left, chained, more, n);
    }
  }

  lemma BothJoin(c1: Changes, c2: Changes, joined: Changes)
    requires Proper(c1) && Proper(c2) && MovesOfBoth(c1, c2, joined.moves)
    requires joined.deletions == Inserted(Erased(c2.deletions, c1.insertions), c1.deletions)
    requires joined.insertions == Inserted(Erased(c1.insertions, c2.deletions), c2.insertions)
    ensures Joined(c1, c2, joined) && Proper(joined)
  {
    hide Inserted, Erased, Proper, JoinedMove;
    JoinedProper(c1, c2, joined);
  }

  lemma JoinedIsMerged(c1: Changes, c2: Changes, joined: Changes, cleaned: Changes, modifications: set<nat>,
                       more: set<nat>)
    requires Joined(c1, c2, joined) && CleanOf(joined, cleaned) && !Nothing(c1) && !Nothing(c2)
    requires ModificationsOfBoth(c1, c2, more)
    requires modifications == Shifted(Erased(c1.modifications, c2.deletions), c2.insertions) + more
    ensures MergesTo(c1, c2, joined.(modifications := modifications), cleaned.(modifications := modifications))
    ensures Proper(cleaned.(modifications := modifications))
  {
    hide Inserted, Shifted, Erased, Carried, JoinedMove, Unshift, OneToOne;
    var c, c' := joined.(modifications := modifications), cleaned.(modifications := modifications);
    forall b, n
      ensures Comes(c', b, n) <==> Comes(c, b, n)
    {
      assert Comes(c', b, n) <==> Comes(cleaned, b, n);
      assert Comes(c, b, n) <==> Comes(joined, b, n);
    }
    forall l, n | Fits(c, l, n)
      ensures Fits(c', l, n)
    {
      assert Fits(joined, l, n) && Fits(cleaned, l, n);
    }
    forall m | m in c'.moves
      ensures !Stale(c', m)
    {
      assert !Stale(cleaned, m);
    }
  }

  // ---- Single changes ---------------------------------------------------------------------------

  /** The row at index is replaced. */
  function Replaced(index: nat): Changes {
    Changes({}, {}, {index}, [])
  }

  function Added(index: nat, count: nat): Changes {
    Changes({}, Members(Block(index, count)), {}, [])
  }

  lemma AddedStays(index: nat, count: nat)
    ensures Proper(Added(index, count))
    ensures forall b: nat, n: nat :: Comes(Added(index, count), b, n) <==> n == if b >= index then b + count else b
  {
    hide Unshift, Shift;
    var c, block := Added(index, count), Block(index, count);
    forall b: nat, n: nat
      ensures Stays(c, b, n) <==> n == if b >= index then b + count else b
    {
      NoShift(b);
      UnshiftCounts(block, if n <= index then 0 else if n < index + count then n - index else count, n);
    }
  }

  lemma RetargetNone(moves: seq<Move>, c2: Changes)
    ensures Retargeted(moves[..0], c2, [])
  {
  }

  function Gone(index: nat): Changes {
    Changes({index}, {}, {}, [])
  }

  /** The row at from is taken out and put in so that it ends up at to. */
  function Taken(from: nat, to: nat): Changes {
    Changes({from}, {to}, {}, [Move(from, to)])
  }

  function Emptied(l: nat): Changes {
    Changes(Members(Block(0, l)), {}, {}, [])
  }

  lemma GoneComes(index: nat)
    ensures Proper(Gone(index))
    ensures forall b: nat, n: nat ::
              Comes(Gone(index), b, n) <==> b != index && n == if b > index then b - 1 else b
  {
    hide Unshift, Shift;
    TakeOne(index);
    forall b: nat, n: nat
      ensures Stays(Gone(index), b, n) <==> b != index && n == if b > index then b - 1 else b
    {
      NoShift(n);
    }
  }

  lemma TakenComes(from: nat, to: nat)
    requires from != to
    ensures Proper(Taken(from, to))
    ensures forall b: nat, n: nat ::
              Comes(Taken(from, to), b, n) <==>
                n == if b == from then to else if to <= b < from then b + 1 else if from < b <= to then b - 1 else b
  {
    hide Unshift, Shift;
    TakeOne(from);
    TakeOne(to);
  }

  lemma EndsAtNone(moves: seq<Move>, b: nat)
    ensures !EndsAt(moves[..0], b)
  {
  }

  lemma EndsInserted(c: Changes, b: nat)
    requires Proper(c)
    ensures EndsAt(c.moves, b) ==> b in c.insertions
  {
  }

  /** A change is recorded when the moves and the modified rows go where it takes them. */
  lemma IsRecorded(c1: Changes, c2: Changes, c: Changes, moved: set<nat>)
    requires Proper(c1) && Proper(c2) && MovesOfBoth(c1, c2, c.moves)
    requires c.deletions == Inserted(Erased(c2.deletions, c1.insertions), c1.deletions)
    requires c.insertions == Inserted(Erased(c1.insertions, c2.deletions), c2.insertions)
    requires c.modifications == Shifted(Erased(c1.modifications, c2.deletions), c2.insertions) + moved
    requires forall n :: n in moved <==>
               n in c2.modifications || exists b :: b in c1.modifications && Move(b, n) in c2.moves
    ensures Recorded(c1, c2, c) && Proper(c)
  {
    hide Inserted, Shifted, Erased, Stays, Proper, JoinedMove;
    forall n
      ensures n in c.modifications <==>
                n in c2.modifications || exists b :: b in c1.modifications && Comes(c2, b, n)
    {
      ModifiedStays(c1.modifications, c2, n);
    }
    JoinedProper(c1, c2, c);
  }

  lemma RetargetedIsAll(c1: Changes, c2: Changes, kept: seq<Move>)
    requires c2.moves == [] && Retargeted(c1.moves, c2, kept)
    ensures MovesOfBoth(c1, c2, kept)
  {
    hide Stays;
  }

  lemma ReplacedRecorded(c1: Changes, index: nat, c: Changes)
    requires Proper(c1) && c == c1.(modifications := c1.modifications + {index})
    ensures Recorded(c1, Replaced(index), c) && Proper(c)
  {
    hide Erased, Inserted, Shifted, Comes, MovesOfBoth;
    NothingShifts(c1.insertions);
    NothingShifts(c1.deletions);
    NothingShifts(c1.modifications);
    NothingToUpdate(c1, Replaced(index));
    RetargetedIsAll(c1, Replaced(index), c.moves);
    IsRecorded(c1, Replaced(index), c, {index});
  }

  lemma AddedRecorded(c1: Changes, index: nat, count: nat, c: Changes)
    requires Proper(c1) && Retargeted(c1.moves, Added(index, count), c.moves)
    requires c.deletions == c1.deletions
    requires c.insertions == Inserted(c1.insertions, Added(index, count).insertions)
    requires c.modifications == Shifted(c1.modifications, Added(index, count).insertions)
    ensures Recorded(c1, Added(index, count), c) && Proper(c)
  {
    hide Erased, Inserted, Shifted, Comes, MovesOfBoth;
    NothingShifts(c1.insertions);
    NothingShifts(c1.deletions);
    NothingShifts(c1.modifications);
    RetargetedIsAll(c1, Added(index, count), c.moves);
    IsRecorded(c1, Added(index, count), c, {});
  }

  /** Deleting one position: nothing is left of it to delete if it was inserted. */
  lemma EraseOne(index: nat, insertions: set<nat>, deletions: set<nat>)
    ensures Inserted(Erased({index}, insertions), deletions)
         == deletions + if index in insertions then {} else {Shift(deletions, Unshift(insertions, index))}
  {
    hide Unshift, Shift;
    assert Erased({index}, insertions) == if index in insertions then {} else {Unshift(insertions, index)};
  }

  lemma GoneRecorded(c1: Changes, index: nat, c: Changes)
    requires Proper(c1) && Retargeted(c1.moves, Gone(index), c.moves)
    requires c.deletions == c1.deletions
                          + if index in c1.insertions then {}
                            else {Shift(c1.deletions, Unshift(c1.insertions, index))}
    requires c.insertions == Erased(c1.insertions, {index})
    requires c.modifications == Erased(c1.modifications, {index})
    ensures Recorded(c1, Gone(index), c) && Proper(c)
  {
    hide Erased, Inserted, Shifted, Comes, MovesOfBoth, Unshift, Shift;
    EraseOne(index, c1.insertions, c1.deletions);
    NothingShifts(c.insertions);
    NothingShifts(c.modifications);
    RetargetedIsAll(c1, Gone(index), c.moves);
    IsRecorded(c1, Gone(index), c, {});
  }

  lemma TakenRecorded(c1: Changes, from: nat, to: nat, kept: seq<Move>, c: Changes)
    requires Proper(c1) && from != to && Retargeted(c1.moves, Taken(from, to), kept)
    requires if from in c1.insertions then c.deletions == c1.deletions && c.moves == kept
             else var a := Shift(c1.deletions, Unshift(c1.insertions, from));
                  c.deletions == c1.deletions + {a} && c.moves == kept + [Move(a, to)]
    requires c.insertions == Inserted(Erased(c1.insertions, {from}), {to})
    requires c.modifications ==
               if from in c1.modifications then Inserted(Erased(c1.modifications, {from}), {to})
               else Shifted(Erased(c1.modifications, {from}), {to})
    ensures Recorded(c1, Taken(from, to), c) && Proper(c)
  {
    hide Erased, Shifted, Comes, MovesOfBoth, Unshift, Shift, Retargeted;
    EraseOne(from, c1.insertions, c1.deletions);
    TakenMoves(c1, from, to, kept, c.moves);
    IsRecorded(c1, Taken(from, to), c, if from in c1.modifications then {to} else {});
  }

  lemma TakenMoves(c1: Changes, from: nat, to: nat, kept: seq<Move>, all: seq<Move>)
    requires Proper(c1) && Retargeted(c1.moves, Taken(from, to), kept)
    requires if from in c1.insertions then all == kept
             else all == kept + [Move(Shift(c1.deletions, Unshift(c1.insertions, from)), to)]
    ensures MovesOfBoth(c1, Taken(from, to), all)
  {
    hide Unshift, Shift, Retargeted;
    var c2 := Taken(from, to);
    forall a, n
      ensures Move(a, n) in all <==> JoinedMove(c1, c2, a, n)
    {
      TakenJoins(c1, from, to, kept, all, a, n);
    }
    KeptMoves(c1, c2, kept);
  }

  lemma TakenJoins(c1: Changes, from: nat, to: nat, kept: seq<Move>, all: seq<Move>, a: nat, n: nat)
    requires Retargeted(c1.moves, Taken(from, to), kept)
    requires if from in c1.insertions then all == kept
             else all == kept + [Move(Shift(c1.deletions, Unshift(c1.insertions, from)), to)]
    ensures Move(a, n) in all <==> JoinedMove(c1, Taken(from, to), a, n)
  {
    hide Unshift, Shift, Comes;
    if from !in c1.insertions && a !in c1.deletions {
      ShiftUndoesUnshift(c1.deletions, a);
    }
    assert Move(from, to) in Taken(from, to).moves;
  }

  /** The old moves start at deleted positions, each at another. */
  lemma KeptMoves(c1: Changes, c2: Changes, kept: seq<Move>)
    requires Proper(c1) && Retargeted(c1.moves, c2, kept)
    ensures forall m | m in kept :: m.from in c1.deletions
    ensures forall x, y | 0 <= x < y < |kept| :: kept[x] != kept[y]
  {
    hide Comes;
    forall m | m in kept
      ensures m.from in c1.deletions
    {
      assert Move(m.from, m.to) in kept;
      var b :| Move(m.from, b) in c1.moves && Comes(c2, b, m.to);
    }
  }

  /** Modified rows that stay are the same before and afterwards. */
  lemma FinalModifications(c: Changes, before: set<nat>, afterwards: set<nat>)
    requires before == Shifted(Erased(c.modifications, c.insertions), c.deletions)
    requires afterwards == c.modifications - c.insertions
    ensures forall b, n | Stays(c, b, n) :: b in before <==> n in afterwards
    ensures |before| == |afterwards|
  {
    hide Unshift, Shift, Shifted, Erased;
    forall b, n | Stays(c, b, n)
      ensures b in before <==> n in afterwards
    {
      InShifted(Erased(c.modifications, c.insertions), c.deletions, b);
      InErased(c.modifications, c.insertions, n);
    }
    ErasedSize(c.modifications, c.insertions);
    ShiftedSize(Erased(c.modifications, c.insertions), c.deletions);
  }
}
