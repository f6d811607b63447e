/** Index sets as their indexes in ascending order, and how positions shift when indexes are put in or taken out. */
module IndexSets {
  import opened ListOps

  // ---- Where a position goes --------------------------------------------------------------------

  /** How many positions below n are not in p: where n goes when the positions of p are taken out. */
  function Unshift(p: set<nat>, n: nat): (r: nat)
    ensures r <= n
  {
    if n == 0 then 0 else Unshift(p, n - 1) + if n - 1 in p then 0 else 1
  }

  lemma {:induction false} UnshiftClimbs(p: set<nat>, m: nat, n: nat)
    requires m <= n
    ensures Unshift(p, m) <= Unshift(p, n)
    ensures m < n && m !in p ==> Unshift(p, m) < Unshift(p, n)
    decreases n - m
  {
    if m < n {
      UnshiftClimbs(p, m, n - 1);
    }
  }

  /** Positions outside p keep their order, so no two of them go to the same place. */
  lemma UnshiftOrder(p: set<nat>, m: nat, n: nat)
    requires m !in p && n !in p
    ensures Unshift(p, m) < Unshift(p, n) <==> m < n
  {
    UnshiftClimbs(p, if m < n then m else n, if m < n then n else m);
  }

  lemma {:induction false} UnshiftReaches(p: set<nat>, n: nat)
    ensures Unshift(p, n) + |p| >= n
    decreases n
  {
    if n > 0 {
      if n - 1 in p {
        UnshiftReaches(p - {n - 1}, n - 1);
        UnshiftSame(p, p - {n - 1}, n - 1);
      } else {
        UnshiftReaches(p, n - 1);
      }
    }
  }

  lemma {:induction false} UnshiftSame(p: set<nat>, q: set<nat>, n: nat)
    requires forall o: nat | o < n :: o in p <==> o in q
    ensures Unshift(p, n) == Unshift(q, n)
    decreases n
  {
    if n > 0 {
      UnshiftSame(p, q, n - 1);
    }
  }

  lemma {:induction false} UnshiftSize(p: set<nat>, n: nat)
    requires forall o | o in p :: o < n
    ensures Unshift(p, n) + |p| == n
    decreases n
  {
    if n > 0 {
      UnshiftSize(p - {n - 1}, n - 1);
      UnshiftSame(p, p - {n - 1}, n - 1);
    }
  }

  lemma {:induction false} ShiftExists(p: set<nat>, k: nat, n: nat)
    requires Unshift(p, n) > k
    ensures exists m :: 0 <= m < n && m !in p && Unshift(p, m) == k
    decreases n
  {
    if Unshift(p, n - 1) > k {
      ShiftExists(p, k, n - 1);
    } else {
      assert n - 1 !in p && Unshift(p, n - 1) == k;
    }
  }

  /** The position outside p that goes to k. */
  ghost function Shift(p: set<nat>, k: nat): (m: nat)
    ensures m !in p && Unshift(p, m) == k
  {
    UnshiftReaches(p, k + |p| + 1);
    ShiftExists(p, k, k + |p| + 1);
    var m: nat :| m !in p && Unshift(p, m) == k;
    m
  }

  /** Shifting and unshifting undo each other. */
  lemma ShiftUndoesUnshift(p: set<nat>, m: nat)
    requires m !in p
    ensures Shift(p, Unshift(p, m)) == m
  {
    UnshiftOrder(p, m, Shift(p, Unshift(p, m)));
    UnshiftOrder(p, Shift(p, Unshift(p, m)), m);
  }

  // ---- Sets that shift --------------------------------------------------------------------------

  /** What is left of x when the positions of p are taken out. */
  function Erased(x: set<nat>, p: set<nat>): set<nat> {
    set m | m in x && m !in p :: Unshift(p, m)
  }

  /** Where x goes when the positions of p are put in. */
  ghost function Shifted(x: set<nat>, p: set<nat>): set<nat> {
    set k | k in x :: Shift(p, k)
  }

  ghost function Inserted(x: set<nat>, p: set<nat>): set<nat> {
    p + Shifted(x, p)
  }

  lemma InErased(x: set<nat>, p: set<nat>, m: nat)
    requires m !in p
    ensures Unshift(p, m) in Erased(x, p) <==> m in x
  {
    if Unshift(p, m) in Erased(x, p) {
      var m' :| m' in x && m' !in p && Unshift(p, m') == Unshift(p, m);
      UnshiftOrder(p, m, m');
      UnshiftOrder(p, m', m);
    }
  }

  lemma InShifted(x: set<nat>, p: set<nat>, n: nat)
    ensures n in Shifted(x, p) <==> n !in p && Unshift(p, n) in x
  {
    if n !in p && Unshift(p, n) in x {
      ShiftUndoesUnshift(p, n);
    }
  }

  lemma InInserted(x: set<nat>, p: set<nat>, n: nat)
    ensures n in Inserted(x, p) <==> n in p || Unshift(p, n) in x
  {
    InShifted(x, p, n);
  }

  /** What was shifted for insertions is found again when they are erased. */
  lemma ErasedUndoesShifted(x: set<nat>, p: set<nat>)
    ensures Erased(Shifted(x, p), p) == x
  {
    forall k
      ensures k in Erased(Shifted(x, p), p) <==> k in x
    {
      InErased(Shifted(x, p), p, Shift(p, k));
      InShifted(x, p, Shift(p, k));
    }
  }

  lemma {:induction false} ErasedSize(x: set<nat>, p: set<nat>)
    ensures |Erased(x, p)| == |x - p|
    decreases x
  {
    hide Unshift;
    if m :| m in x {
      ErasedSize(x - {m}, p);
      if m in p {
        assert Erased(x, p) == Erased(x - {m}, p) && x - p == (x - {m}) - p;
      } else {
        InErased(x - {m}, p, m);
        assert Erased(x, p) == Erased(x - {m}, p) + {Unshift(p, m)} && x - p == ((x - {m}) - p) + {m};
      }
    }
  }

  lemma {:induction false} ShiftedSize(x: set<nat>, p: set<nat>)
    ensures |Shifted(x, p)| == |x|
    decreases x
  {
    hide Shift, Unshift;
    if k :| k in x {
      ShiftedSize(x - {k}, p);
      InShifted(x - {k}, p, Shift(p, k));
      assert Shifted(x, p) == Shifted(x - {k}, p) + {Shift(p, k)};
    }
  }

  /** Taking out p and then x goes the same way as taking out both at once. */
  lemma {:induction false} UnshiftInserted(x: set<nat>, p: set<nat>, n: nat)
    ensures Unshift(Inserted(x, p), n) == Unshift(x, Unshift(p, n))
    decreases n
  {
    if n > 0 {
      UnshiftInserted(x, p, n - 1);
      InInserted(x, p, n - 1);
    }
  }

  /** Putting back what is left of q completes p to the union. */
  lemma InsertedErased(q: set<nat>, p: set<nat>)
    ensures Inserted(Erased(q, p), p) == p + q
  {
    forall n
      ensures n in Inserted(Erased(q, p), p) <==> n in p + q
    {
      InInserted(Erased(q, p), p, n);
      if n !in p {
        InErased(q, p, n);
      }
    }
  }

  /** Two sets of positions may be taken out in either order. */
  lemma UnshiftCommutes(p: set<nat>, q: set<nat>, n: nat)
    ensures Unshift(Erased(q, p), Unshift(p, n)) == Unshift(Erased(p, q), Unshift(q, n)) == Unshift(p + q, n)
  {
    UnshiftInserted(Erased(q, p), p, n);
    UnshiftInserted(Erased(p, q), q, n);
    InsertedErased(q, p);
    InsertedErased(p, q);
    assert p + q == q + p;
  }

  /** One position less to take out leaves every position behind it one further up. */
  lemma {:induction false} UnshiftWithout(p: set<nat>, o: nat, n: nat)
    requires o in p
    ensures Unshift(p - {o}, n) == Unshift(p, n) + if o < n then 1 else 0
    decreases n
  {
    if n > 0 {
      UnshiftWithout(p, o, n - 1);
    }
  }

  lemma {:induction false} NoShift(n: nat)
    ensures Unshift({}, n) == n == Shift({}, n)
  {
    if n > 0 {
      NoShift(n - 1);
    }
    ShiftUndoesUnshift({}, n);
  }

  /** Nothing shifts for no positions, and no positions shift for anything. */
  lemma NothingShifts(x: set<nat>)
    ensures Erased(x, {}) == Shifted(x, {}) == Inserted(x, {}) == Inserted({}, x) == x
    ensures Erased({}, x) == Shifted({}, x) == {}
  {
    hide Unshift, Shift;
    forall n: nat
      ensures Unshift({}, n) == n == Shift({}, n)
    {
      NoShift(n);
    }
    assert forall m: nat | m in x :: m == Unshift({}, m) == Shift({}, m);
  }

  // ---- The operations ---------------------------------------------------------------------------

  /** An index set, as its indexes in ascending order. */
  type IndexSet = seq<nat>

  /** The indexes from j on are those at x and behind it. */
  predicate SplitAt(p: IndexSet, j: nat, x: nat) {
    && j <= |p|
    && (forall i | 0 <= i < j :: p[i] < x)
    && (forall i | j <= i < |p| :: x <= p[i])
  }

  lemma {:induction false} UnshiftCounts(p: IndexSet, j: nat, x: nat)
    requires Ascending(p) && SplitAt(p, j, x)
    ensures j <= x && Unshift(Members(p), x) == x - j
    decreases x
  {
    if x > 0 {
      if j > 0 && p[j - 1] == x - 1 {
        UnshiftCounts(p, j - 1, x - 1);
      } else {
        assert x - 1 !in p;
        UnshiftCounts(p, j, x - 1);
      }
    }
  }

  /** Between the indexes, a position is the shift of its distance to their number before it. */
  lemma ShiftCounts(p: IndexSet, j: nat, k: nat)
    requires Ascending(p) && SplitAt(p, j, k + j) && k + j !in p
    ensures Shift(Members(p), k) == k + j
  {
    UnshiftCounts(p, j, k + j);
    ShiftUndoesUnshift(Members(p), k + j);
  }

  method ShiftIndex(p: IndexSet, index: nat) returns (r: nat)
    requires Ascending(p)
    ensures r == Shift(Members(p), index)
  {
    r := index;
    var j := 0;
    while j < |p| && p[j] <= r
      invariant 0 <= j <= |p| && r == index + j
      invariant forall i | 0 <= i < j :: p[i] < r
    {
      r := r + 1;
      j := j + 1;
    }
    ShiftCounts(p, j, index);
  }

  method UnshiftIndex(p: IndexSet, index: nat) returns (r: nat)
    requires Ascending(p)
    ensures r == Unshift(Members(p), index)
  {
    var j := Find(p, index);
    UnshiftCounts(p, j, index);
    r := index - j;
  }

  method HasIndex(p: IndexSet, index: nat) returns (r: bool)
    ensures r <==> index in Members(p)
  {
    r := index in p;
  }

  /** The number of indexes below the given one. */
  method Find(x: IndexSet, index: nat) returns (j: nat)
    requires Ascending(x)
    ensures SplitAt(x, j, index)
  {
    j := 0;
    while j < |x| && x[j] < index
      invariant 0 <= j <= |x| && forall i | 0 <= i < j :: x[i] < index
    {
      j := j + 1;
    }
  }

  method Add(x: IndexSet, index: nat) returns (r: IndexSet)
    requires Ascending(x)
    ensures Ascending(r) && Members(r) == Members(x) + {index}
  {
    var j := Find(x, index);
    r := if j < |x| && x[j] == index then x else x[..j] + [index] + x[j..];
    assert j < |x| && x[j] == index ==> index in x;
    assert x == x[..j] + x[j..];
  }

  method AddAll(x: IndexSet, other: IndexSet) returns (r: IndexSet)
    requires Ascending(x)
    ensures Ascending(r) && Members(r) == Members(x) + Members(other)
  {
    hide Ascending;
    r := x;
    var i := 0;
    while i < |other|
      invariant 0 <= i <= |other|
      invariant Ascending(r) && Members(r) == Members(x) + Members(other[..i])
    {
      assert other[..i + 1] == other[..i] + [other[i]];
      r := Add(r, other[i]);
      i := i + 1;
    }
    assert other[..i] == other;
  }

  method Remove(x: IndexSet, index: nat) returns (r: IndexSet)
    requires Ascending(x)
    ensures Ascending(r) && Members(r) == Members(x) - {index}
  {
    var j := Find(x, index);
    r := if j < |x| && x[j] == index then x[..j] + x[j + 1..] else x;
    if j < |x| && x[j] == index {
      assert x == x[..j] + [index] + x[j + 1..];
    }
  }

  method RemoveAll(x: IndexSet, values: IndexSet) returns (r: IndexSet)
    requires Ascending(x)
    ensures Ascending(r) && Members(r) == Members(x) - Members(values)
  {
    hide Ascending;
    r := x;
    var i := 0;
    while i < |values|
      invariant 0 <= i <= |values|
      invariant Ascending(r) && Members(r) == Members(x) - Members(values[..i])
    {
      assert values[..i + 1] == values[..i] + [values[i]];
      r := Remove(r, values[i]);
      i := i + 1;
    }
    assert values[..i] == values;
  }

  /** Appending an index behind all others. */
  lemma Append(r: IndexSet, o: nat)
    requires Ascending(r) && forall o' | o' in Members(r) :: o' < o
    ensures Ascending(r + [o]) && Members(r + [o]) == Members(r) + {o}
  {
    forall i | 0 <= i < |r|
      ensures r[i] < o
    {
      assert r[i] in Members(r);
    }
  }

  lemma MembersStep(x: IndexSet, i: nat)
    requires Ascending(x) && i < |x|
    ensures Members(x[..i + 1]) == Members(x[..i]) + {x[i]}
    ensures forall m | m in Members(x[..i]) :: m < x[i]
    ensures x[..|x|] == x && Members(x[..0]) == {}
  {
    assert x[..i + 1] == x[..i] + [x[i]];
  }

  lemma ErasedStep(x: IndexSet, i: nat, p: set<nat>)
    requires Ascending(x) && i < |x|
    ensures Erased(Members(x[..i + 1]), p)
         == Erased(Members(x[..i]), p) + if x[i] in p then {} else {Unshift(p, x[i])}
    ensures x[i] !in p ==> forall o | o in Erased(Members(x[..i]), p) :: o < Unshift(p, x[i])
  {
    hide Unshift, Members;
    MembersStep(x, i);
    if x[i] !in p {
      forall m | m in Members(x[..i]) && m !in p
        ensures Unshift(p, m) < Unshift(p, x[i])
      {
        UnshiftOrder(p, m, x[i]);
      }
    }
  }

  method EraseAt(x: IndexSet, positions: IndexSet) returns (r: IndexSet)
    requires Ascending(x) && Ascending(positions)
    ensures Ascending(r) && Members(r) == Erased(Members(x), Members(positions))
  {
    hide Erased, Unshift;
    if x == [] || positions == [] {
      ErasedNothing(x, positions);
      return x;
    }
    ghost var p := Members(positions);
    r := [];
    var i, j, shift := 0, 0, 0;
    assert x[..0] == [];
    ErasedNothing([], positions);
    while i < |x| && j < |positions|
      invariant 0 <= i <= |x| && 0 <= j <= |positions| && shift == j
      invariant i < |x| ==> forall o | 0 <= o < j :: positions[o] < x[i]
      invariant Ascending(r) && Members(r) == Erased(Members(x[..i]), p)
      decreases |x| - i + |positions| - j
    {
      ErasedStep(x, i, p);
      if x[i] < positions[j] {
        UnshiftCounts(positions, j, x[i]);
        Append(r, x[i] - shift);
        r := r + [x[i] - shift];
        i := i + 1;
      } else if x[i] == positions[j] {
        shift := shift + 1;
        i, j := i + 1, j + 1;
      } else {
        shift := shift + 1;
        j := j + 1;
      }
    }
    while i < |x|
      invariant 0 <= i <= |x| && shift == j && (i < |x| ==> j == |positions|)
      invariant i < |x| ==> forall o | 0 <= o < j :: positions[o] < x[i]
      invariant Ascending(r) && Members(r) == Erased(Members(x[..i]), p)
    {
      ErasedStep(x, i, p);
      UnshiftCounts(positions, j, x[i]);
      Append(r, x[i] - shift);
      r := r + [x[i] - shift];
      i := i + 1;
    }
    assert x[..|x|] == x;
  }

  lemma ErasedNothing(x: IndexSet, positions: IndexSet)
    requires x == [] || positions == []
    ensures Erased(Members(x), Members(positions)) == Members(x)
  {
    hide Erased;
    assert x == [] ==> Members(x) == {};
    assert positions == [] ==> Members(positions) == {};
    NothingShifts(Members(x));
    NothingShifts(Members(positions));
  }

  lemma MembersSize(p: IndexSet)
    requires Ascending(p)
    ensures |Members(p)| == |p|
  {
    if p != [] {
      MembersSize(p[..|p| - 1]);
      MembersStep(p, |p| - 1);
    }
  }

  lemma TakeOne(o: nat)
    ensures Ascending([o]) && Members([o]) == {o}
    ensures forall n: nat :: Unshift({o}, n) == if o < n then n - 1 else n
  {
    forall n: nat
      ensures Unshift({o}, n) == if o < n then n - 1 else n
    {
      assert Members([o]) == {o};
      UnshiftCounts([o], if o < n then 1 else 0, n);
    }
  }

  function Block(index: nat, count: nat): (block: IndexSet)
    ensures |block| == count && Ascending(block) && forall i | 0 <= i < count :: block[i] == index + i
    ensures forall o :: o in Members(block) <==> index <= o < index + count
  {
    var block := seq(count, i requires 0 <= i < count => index + i);
    BlockMembers(block, index);
    block
  }

  lemma BlockMembers(block: seq<nat>, index: nat)
    requires forall i | 0 <= i < |block| :: block[i] == index + i
    ensures forall o :: o in Members(block) <==> index <= o < index + |block|
  {
    forall o | index <= o < index + |block|
      ensures o in block
    {
      assert block[o - index] == o;
    }
  }

  // ---- Putting indexes in -----------------------------------------------------------------------

  lemma ShiftClimbs(p: set<nat>, k: nat, k': nat)
    requires k < k'
    ensures Shift(p, k) < Shift(p, k')
  {
    UnshiftOrder(p, Shift(p, k), Shift(p, k'));
  }

  /** The shifts of the first i indexes, in order. */
  lemma ShiftedStep(x: IndexSet, i: nat, p: set<nat>)
    requires Ascending(x) && i < |x|
    ensures Shifted(Members(x[..i + 1]), p) == Shifted(Members(x[..i]), p) + {Shift(p, x[i])}
    ensures forall o | o in Shifted(Members(x[..i]), p) :: o < Shift(p, x[i])
  {
    hide Shift, Members;
    MembersStep(x, i);
    forall k | k in Members(x[..i])
      ensures Shift(p, k) < Shift(p, x[i])
    {
      ShiftClimbs(p, k, x[i]);
    }
  }

  /** The merge of the shifts of e with the first j positions. Everything to come from e is at low or behind it. */
  ghost predicate MergedUpTo(r: IndexSet, e: IndexSet, positions: IndexSet, j: nat, low: nat)
    requires j <= |positions|
  {
    && Ascending(r) && Ascending(e)
    && Members(r) == Shifted(Members(e), Members(positions)) + Members(positions[..j])
    && (forall k | k in Members(e) :: k < low)
    && (forall o | 0 <= o < j :: positions[o] < low + j)
    && (j < |positions| ==> forall o | o in Members(r) :: o < positions[j])
  }

  lemma MergeStart(positions: IndexSet)
    ensures MergedUpTo([], [], positions, 0, 0)
  {
  }

  /** The shift of k comes next if it stands before position j. */
  lemma PushShifted(r: IndexSet, e: IndexSet, positions: IndexSet, j: nat, low: nat, k: nat)
    requires Ascending(positions) && j <= |positions| && MergedUpTo(r, e, positions, j, low)
    requires low <= k && (j < |positions| ==> k + j < positions[j])
    ensures MergedUpTo(r + [k + j], e + [k], positions, j, k + 1) && Members(e + [k]) == Members(e) + {k}
  {
    hide Shift, Members;
    var p := Members(positions);
    NotBetween(positions, j, k);
    ShiftCounts(positions, j, k);
    Append(e, k);
    forall o | o in Members(r)
      ensures o < k + j
    {
      if o in Shifted(Members(e), p) {
        var k' :| k' in Members(e) && o == Shift(p, k');
        ShiftClimbs(p, k', k);
      } else {
        InPrefix(positions, j, o);
      }
    }
    Append(r, k + j);
  }

  lemma NotBetween(positions: IndexSet, j: nat, k: nat)
    requires Ascending(positions) && j <= |positions|
    requires forall o | 0 <= o < j :: positions[o] < k + j
    requires j < |positions| ==> k + j < positions[j]
    ensures SplitAt(positions, j, k + j) && k + j !in positions
  {
  }

  lemma InPrefix(positions: IndexSet, j: nat, o: nat)
    requires j <= |positions| && o in Members(positions[..j])
    ensures exists i :: 0 <= i < j && positions[i] == o
  {
    var i :| 0 <= i < j && positions[..j][i] == o;
  }

  /** Position j comes next if the shift of all k to come stands behind it. */
  lemma PushPosition(r: IndexSet, e: IndexSet, positions: IndexSet, j: nat, low: nat, k: nat)
    requires Ascending(positions) && j < |positions| && MergedUpTo(r, e, positions, j, low)
    requires low <= k && positions[j] <= k + j
    ensures MergedUpTo(r + [positions[j]], e, positions, j + 1, k)
  {
    hide Shift;
    MembersStep(positions, j);
    Append(r, positions[j]);
  }

  method InsertAt(x: IndexSet, positions: IndexSet) returns (r: IndexSet)
    requires Ascending(x) && Ascending(positions)
    ensures Ascending(r) && Members(r) == Inserted(Members(x), Members(positions))
  {
    hide MergedUpTo, Shift;
    if positions == [] {
      ShiftsNone(x, positions);
      return x;
    }
    if x == [] {
      return positions;
    }
    r := [];
    var i, j, shift := 0, 0, 0;
    ghost var low := 0;
    MergeStart(positions);
    assert x[..0] == [];
    while i < |x| && j < |positions|
      invariant 0 <= i <= |x| && 0 <= j <= |positions| && shift == j
      invariant MergedUpTo(r, x[..i], positions, j, low) && (i < |x| ==> low <= x[i])
      decreases |x| - i + |positions| - j
    {
      if x[i] + shift < positions[j] {
        PushShifted(r, x[..i], positions, j, low, x[i]);
        r := r + [x[i] + shift];
        low := x[i] + 1;
        assert x[..i + 1] == x[..i] + [x[i]];
        i := i + 1;
      } else {
        PushPosition(r, x[..i], positions, j, low, x[i]);
        low := x[i];
        shift := shift + 1;
        r := r + [positions[j]];
        j := j + 1;
      }
    }
    while i < |x|
      invariant 0 <= i <= |x| && shift == j <= |positions| && (i < |x| ==> j == |positions|)
      invariant MergedUpTo(r, x[..i], positions, j, low) && (i < |x| ==> low <= x[i])
    {
      PushShifted(r, x[..i], positions, j, low, x[i]);
      r := r + [x[i] + shift];
      low := x[i] + 1;
      assert x[..i + 1] == x[..i] + [x[i]];
      i := i + 1;
    }
    assert x[..i] == x;
    r := PushRest(r, positions, j, x, low);
  }

  lemma MergeEnd(r: IndexSet, e: IndexSet, positions: IndexSet, low: nat)
    requires MergedUpTo(r, e, positions, |positions|, low)
    ensures Ascending(r) && Members(r) == Inserted(Members(e), Members(positions))
  {
    hide Shift;
    assert positions[..|positions|] == positions;
  }

  method ShiftForInsertAt(x: IndexSet, positions: IndexSet) returns (r: IndexSet)
    requires Ascending(x) && Ascending(positions)
    ensures Ascending(r) && Members(r) == Shifted(Members(x), Members(positions))
  {
    hide Shift, Shifted, Members;
    if x == [] || positions == [] || positions[0] > x[|x| - 1] {
      ShiftsNone(x, positions);
      return x;
    }
    ghost var p := Members(positions);
    r := [];
    var i, j, shift := 0, 0, 0;
    assert x[..0] == [];
    ShiftsNone([], positions);
    while i < |x| && j < |positions|
      invariant 0 <= i <= |x| && 0 <= j <= |positions| && shift == j
      invariant i < |x| ==> forall o | 0 <= o < j :: positions[o] < x[i] + j
      invariant Ascending(r) && Members(r) == Shifted(Members(x[..i]), p)
      decreases |x| - i + |positions| - j
    {
      if x[i] + shift < positions[j] {
        NotBetween(positions, j, x[i]);
        ShiftCounts(positions, j, x[i]);
        ShiftedStep(x, i, p);
        Append(r, x[i] + shift);
        r := r + [x[i] + shift];
        i := i + 1;
      } else {
        shift := shift + 1;
        j := j + 1;
      }
    }
    while i < |x|
      invariant 0 <= i <= |x| && shift == j && (i < |x| ==> j == |positions|)
      invariant i < |x| ==> forall o | 0 <= o < j :: positions[o] < x[i] + j
      invariant Ascending(r) && Members(r) == Shifted(Members(x[..i]), p)
    {
      NotBetween(positions, j, x[i]);
      ShiftCounts(positions, j, x[i]);
      ShiftedStep(x, i, p);
      Append(r, x[i] + shift);
      r := r + [x[i] + shift];
      i := i + 1;
    }
    assert x[..|x|] == x;
  }

  lemma ShiftsNone(x: IndexSet, positions: IndexSet)
    requires Ascending(x) && Ascending(positions)
    requires x == [] || positions == [] || positions[0] > x[|x| - 1]
    ensures Shifted(Members(x), Members(positions)) == Members(x)
  {
    hide Shift;
    forall k | k in Members(x)
      ensures Shift(Members(positions), k) == k
    {
      ShiftCounts(positions, 0, k);
    }
  }

  lemma NextIsLarger(p: IndexSet, i: nat)
    requires Ascending(p) && i < |p|
    ensures i + 1 < |p| ==> p[i] < p[i + 1]
  {
  }

  /** Copy the indexes of x that stand before the shift of k. */
  method PushUpTo(r: IndexSet, x: IndexSet, o: nat, k: nat, ghost e: IndexSet, ghost low: nat)
    returns (r': IndexSet, o': nat, ghost until: nat)
    requires Ascending(x) && o <= |x| && low <= k && MergedUpTo(r, e, x, o, low)
    ensures o' <= |x| && until <= k && MergedUpTo(r', e, x, o', until)
    ensures o' < |x| ==> k + o' < x[o']
  {
    hide MergedUpTo, Shift, Ascending, Members;
    r', o', until := r, o, low;
    while o' < |x| && x[o'] <= k + o'
      invariant 0 <= o' <= |x| && until <= k && MergedUpTo(r', e, x, o', until)
    {
      PushPosition(r', e, x, o', until, k);
      r' := r' + [x[o']];
      until := k;
      o' := o' + 1;
    }
  }

  method PushRest(r: IndexSet, x: IndexSet, o: nat, ghost e: IndexSet, ghost low: nat) returns (r': IndexSet)
    requires Ascending(x) && o <= |x| && MergedUpTo(r, e, x, o, low)
    ensures Ascending(r') && Members(r') == Inserted(Members(e), Members(x))
  {
    hide MergedUpTo, Shift, Ascending, Members;
    r' := r;
    var i := o;
    ghost var until := low;
    while i < |x|
      invariant 0 <= i <= |x| && MergedUpTo(r', e, x, i, until)
    {
      PushPosition(r', e, x, i, until, until + x[i]);
      until := until + x[i];
      r' := r' + [x[i]];
      i := i + 1;
    }
    MergeEnd(r', e, x, until);
  }

  /** Pass over the indexes of p up to the given one. It is skipped if it is behind none of them or the last of them. */
  method PassUpTo(p: IndexSet, s: nat, index: nat) returns (newShift: nat, skip: bool)
    requires Ascending(p) && s <= |p| && forall i | 0 <= i < s :: p[i] <= index
    ensures newShift <= |p| && forall i | 0 <= i < newShift :: p[i] <= index
    ensures skip <==> index in Members(p)
    ensures !skip ==> newShift <= index && Unshift(Members(p), index) == index - newShift
  {
    hide Unshift;
    newShift := s;
    var skipUntil := if s == 0 then 0 else p[s - 1] + 1;
    while newShift < |p| && p[newShift] <= index
      invariant s <= newShift <= |p| && forall i | 0 <= i < newShift :: p[i] <= index
      invariant skipUntil == if newShift == 0 then 0 else p[newShift - 1] + 1
    {
      skipUntil := p[newShift] + 1;
      newShift := newShift + 1;
    }
    skip := index < skipUntil;
    if !skip {
      UnshiftCounts(p, newShift, index);
    }
  }

  /** The merge of o indexes of x with what is left of the first v values. */
  ghost predicate AddedUpTo(r: IndexSet, e: IndexSet, x: IndexSet, o: nat, low: nat, values: IndexSet, v: nat,
                            p: set<nat>)
    requires o <= |x| && v <= |values|
  {
    && MergedUpTo(r, e, x, o, low)
    && Members(e) == Erased(Members(values[..v]), p)
    && low == if e == [] then 0 else e[|e| - 1] + 1
  }

  lemma AddStart(x: IndexSet, values: IndexSet, p: set<nat>)
    ensures AddedUpTo([], [], x, 0, 0, values, 0, p)
  {
    hide Shift, Unshift;
    MergeStart(x);
  }

  lemma AddSkipped(r: IndexSet, e: IndexSet, x: IndexSet, o: nat, low: nat, values: IndexSet, v: nat, p: set<nat>)
    requires Ascending(values) && o <= |x| && v < |values| && AddedUpTo(r, e, x, o, low, values, v, p)
    ensures values[v] in p ==> AddedUpTo(r, e, x, o, low, values, v + 1, p)
    ensures values[v] !in p ==> low <= Unshift(p, values[v])
  {
    hide MergedUpTo, Unshift;
    ErasedStep(values, v, p);
    assert e != [] ==> e[|e| - 1] in Members(e);
  }

  lemma AddPushed(r: IndexSet, e: IndexSet, x: IndexSet, o: nat, until: nat, values: IndexSet, v: nat, p: set<nat>,
                  k: nat)
    requires Ascending(x) && Ascending(values) && o <= |x| && v < |values| && values[v] !in p
    requires MergedUpTo(r, e, x, o, until) && until <= k && (o < |x| ==> k + o < x[o])
    requires k == Unshift(p, values[v]) && Members(e) == Erased(Members(values[..v]), p)
    ensures AddedUpTo(r + [k + o], e + [k], x, o, k + 1, values, v + 1, p)
  {
    hide MergedUpTo, Unshift, Ascending, Erased, Members;
    ErasedStep(values, v, p);
    PushShifted(r, e, x, o, until, k);
  }

  /** Add to x the indexes of values that are not in shiftedBy, as positions of the time before both were taken out. */
  method AddShiftedBy(x: IndexSet, shiftedBy: IndexSet, values: IndexSet) returns (r: IndexSet)
    requires Ascending(x) && Ascending(shiftedBy) && Ascending(values)
    ensures Ascending(r) && Members(r) == Inserted(Erased(Members(values), Members(shiftedBy)), Members(x))
  {
    if values == [] {
      return x;
    }
    hide MergedUpTo, AddedUpTo, Shift, Unshift, Erased, Ascending, Members;
    ghost var p := Members(shiftedBy);
    ghost var e: IndexSet, low: nat := [], 0;
    r := [];
    var v: nat, oldShift: nat, newShift: nat := 0, 0, 0;
    AddStart(x, values, p);
    while v < |values|
      invariant v <= |values| && newShift <= |shiftedBy| && oldShift <= |x|
      invariant v < |values| ==> forall i | 0 <= i < newShift :: shiftedBy[i] <= values[v]
      invariant AddedUpTo(r, e, x, oldShift, low, values, v, p)
    {
      NextIsLarger(values, v);
      AddSkipped(r, e, x, oldShift, low, values, v, p);
      var skip;
      newShift, skip := PassUpTo(shiftedBy, newShift, values[v]);
      if !skip {
        var k := values[v] - newShift;
        ghost var until;
        AddedIsMerged(r, e, x, oldShift, low, values, v, p);
        r, oldShift, until := PushUpTo(r, x, oldShift, k, e, low);
        AddPushed(r, e, x, oldShift, until, values, v, p, k);
        r := r + [k + oldShift];
        e := e + [k];
        low := k + 1;
      }
      v := v + 1;
    }
    AddedIsMerged(r, e, x, oldShift, low, values, v, p);
    r := PushRest(r, x, oldShift, e, low);
    assert values[..v] == values;
  }

  lemma AddedIsMerged(r: IndexSet, e: IndexSet, x: IndexSet, o: nat, low: nat, values: IndexSet, v: nat, p: set<nat>)
    requires o <= |x| && v <= |values| && AddedUpTo(r, e, x, o, low, values, v, p)
    ensures MergedUpTo(r, e, x, o, low) && Members(e) == Erased(Members(values[..v]), p)
  {
  }
}
