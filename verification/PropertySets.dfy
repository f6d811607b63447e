/** Setting one property by name, on one object and on every row of a query: when it succeeds, what the rows hold
    afterwards, and that nothing else changes.
 */
module PropertySets {
  import opened Store
  import opened Upsert
  import opened UpsertSafety
  import opened UpsertFrame
  import opened UpsertReadback
  import opened UpsertForced
  import opened UpsertPolicies
  import opened UpsertSuccess
  import opened UpsertPlain
  import opened UpsertNew
  import opened ResultsBatch

  /** The column is the first one of that name. */
  predicate NamesColumn(os: ObjectSchema, name: string, c: nat) {
    && c < |os.props| && os.props[c].name == name
    && forall j | 0 <= j < c :: os.props[j].name != name
  }

  predicate IsUnknown(os: ObjectSchema, name: string) {
    forall j | 0 <= j < |os.props| :: os.props[j].name != name
  }

  /** The column may be set: it is no key, or a migration is on. */
  predicate MaySet(cfg: Config, t: TypeName, c: nat)
    requires t in cfg.schema
  {
    cfg.schema[t].pk != Some(c) || cfg.migrating
  }

  // ---- A single set -----------------------------------------------------------------------------

  /** A set of a detached row, of an unknown property or of a locked key is refused and changes nothing. */
  lemma RefusedSetChangesNothing(cfg: Config, s: State, id: RowId, name: string, v: Value, c: nat)
    requires id.t in cfg.schema
    ensures var st := SetProperty(cfg, s, id, name, v);
            && (id !in s.rows ==> st == Step(s, Err(InvalidObject)))
            && (id in s.rows && IsUnknown(cfg.schema[id.t], name) ==> st == Step(s, Err(InvalidProperty)))
            && (id in s.rows && NamesColumn(cfg.schema[id.t], name, c) && !MaySet(cfg, id.t, c) ==>
                  st == Step(s, Err(ModifyPrimaryKey)))
  {
  }

  lemma SetsColumn(cfg: Config, s: State, id: RowId, name: string, v: Value, c: nat)
    requires id.t in cfg.schema && id in s.rows && NamesColumn(cfg.schema[id.t], name, c) && MaySet(cfg, id.t, c)
    ensures SetProperty(cfg, s, id, name, v) == SetPropertyImpl(cfg, s, id, c, cfg.schema[id.t].props[c].kind, v, false)
  {
  }

  /** Setting a null, a scalar, a managed object or a sequence of these succeeds exactly if the column takes it, keys in
      migrations included. Then the cell of the first column of that name holds it; no other cell changes in any case.
   */
  lemma PlainSetIsExact(cfg: Config, s: State, id: RowId, name: string, v: Value, c: nat)
    requires WellFormed(cfg.schema, s) && id in s.rows && NamesColumn(cfg.schema[id.t], name, c)
    requires MaySet(cfg, id.t, c) && Plain(cfg.schema[id.t].props[c].kind, v)
    ensures var kind := cfg.schema[id.t].props[c].kind;
            var st := SetProperty(cfg, s, id, name, v);
            && (st.r.Ok? <==> Accepts(s.rows.Keys, kind, v))
            && OnlyCell(s, st.s, id, c)
            && (st.r.Ok? ==> Get(st.s, id, c) == PlainCell(s.rows.Keys, kind, v))
  {
    SetsColumn(cfg, s, id, name, v, c);
    PlainIsSet(cfg, s, id, c, v);
  }

  /** The value is a tree of distinct objects that does not name the row it is set on. */
  ghost predicate DistinctFor(cfg: Config, s: State, id: RowId, kind: Kind, v: Value) {
    && DistinctValue(cfg.schema, kind, v)
    && NameOf(cfg.schema, s, id) !in ValueNames(cfg.schema, kind, v)
  }

  /** Setting any such value fails with exactly its first error against the store, or succeeds if it has none. */
  lemma SetFailsWithFirstMisfit(cfg: Config, s: State, id: RowId, name: string, v: Value, c: nat)
    requires Ready(cfg, s) && id in s.rows && NamesColumn(cfg.schema[id.t], name, c)
    requires cfg.schema[id.t].pk != Some(c) && DistinctFor(cfg, s, id, cfg.schema[id.t].props[c].kind, v)
    requires Known(s.next, v) && DefaultsKnown(cfg.schema, s.next)
    ensures Ends(SetProperty(cfg, s, id, name, v).r,
                 ValueMisfit(cfg.schema, cfg.policy.ForceCreate?, s, cfg.schema[id.t].props[c].kind,
                             Some(Loc(id, c)), v))
  {
    SetsColumn(cfg, s, id, name, v, c);
    FrameRefl(cfg.schema, s, {});
    SetPropertyFits(cfg, s, {}, s, id, c, cfg.schema[id.t].props[c].kind, v, false);
  }

  /** Setting any such value succeeds exactly if it fits the column and, if it is to be created, none of its names
      exists.
   */
  lemma SetSucceedsIffFits(cfg: Config, s: State, id: RowId, name: string, v: Value, c: nat)
    requires Ready(cfg, s) && id in s.rows && NamesColumn(cfg.schema[id.t], name, c)
    requires cfg.schema[id.t].pk != Some(c) && DistinctFor(cfg, s, id, cfg.schema[id.t].props[c].kind, v)
    requires Known(s.next, v) && DefaultsKnown(cfg.schema, s.next)
    ensures var kind := cfg.schema[id.t].props[c].kind;
            var fits := FitsValue(cfg.schema, s, kind, Some(Loc(id, c)), v);
            SetProperty(cfg, s, id, name, v).r.Ok? <==>
              fits && (cfg.policy.ForceCreate? ==> Absent(cfg.schema, s, ValueNames(cfg.schema, kind, v)))
  {
    var kind := cfg.schema[id.t].props[c].kind;
    var all := cfg.(policy := UpdateAll);
    SetsColumn(cfg, s, id, name, v, c);
    FrameRefl(cfg.schema, s, {});
    SetPropertyFits(if cfg.policy.ForceCreate? then all else cfg, s, {}, s, id, c, kind, v, false);
    if cfg.policy.ForceCreate? {
      ForcedSetExactly(cfg, all, s, id, c, v);
    }
  }

  lemma ForcedSetExactly(force: Config, all: Config, s: State, id: RowId, c: nat, v: Value)
    requires force.policy.ForceCreate? && all.policy.UpdateAll? && force.schema == all.schema
    requires Ready(force, s) && Ready(all, s) && id in s.rows && c < |all.schema[id.t].props|
    requires all.schema[id.t].pk != Some(c) && DistinctFor(all, s, id, all.schema[id.t].props[c].kind, v)
    ensures var kind := all.schema[id.t].props[c].kind;
            var updated := SetPropertyImpl(all, s, id, c, kind, v, false);
            SetPropertyImpl(force, s, id, c, kind, v, false).r.Ok? <==>
              updated.r.Ok? && Absent(all.schema, s, ValueNames(all.schema, kind, v))
  {
    var kind := all.schema[id.t].props[c].kind;
    var names := ValueNames(all.schema, kind, v);
    if SetPropertyImpl(force, s, id, c, kind, v, false).r.Ok? {
      ForcedSetFindsNone(force, s, id, c, v);
    }
    if Absent(all.schema, s, names) {
      SetPropertyAgree(force, all, s, s, {}, id, c, kind, v, false);
    }
  }

  /** A forced set that succeeds finds none of the names of its value. */
  lemma ForcedSetFindsNone(cfg: Config, s: State, id: RowId, c: nat, v: Value)
    requires cfg.policy.ForceCreate? && Ready(cfg, s) && id in s.rows && c < |cfg.schema[id.t].props|
    requires cfg.schema[id.t].pk != Some(c)
    requires SetPropertyImpl(cfg, s, id, c, cfg.schema[id.t].props[c].kind, v, false).r.Ok?
    ensures Absent(cfg.schema, s, ValueNames(cfg.schema, cfg.schema[id.t].props[c].kind, v))
  {
    var kind := cfg.schema[id.t].props[c].kind;
    hide SetPropertyImpl, WellFormed;
    var s' := SetPropertyImpl(cfg, s, id, c, kind, v, false).s;
    SetPropertySafe(cfg, s, id, c, kind, v, false);
    SetPropertyNamed(cfg, s, id, c, kind, v, false);
    forall id', n | id' in s.rows && n in ValueNames(cfg.schema, kind, v)
      ensures NameOf(cfg.schema, s, id') != n
    {
      assert NewRowNamed(cfg.schema, s, s', n);
      var new' :| new' in s'.rows && new' !in s.rows && NameOf(cfg.schema, s', new') == n;
      assert NameOf(cfg.schema, s', id') == NameOf(cfg.schema, s, id');
    }
  }

  /** After a successful set the cell of the first column of that name holds the value, nested objects and lists
      included. Only that cell and rows named in the value have changed, also after a failure.
   */
  lemma SetHolds(cfg: Config, s: State, id: RowId, name: string, v: Value, c: nat)
    requires Ready(cfg, s) && id in s.rows && NamesColumn(cfg.schema[id.t], name, c)
    requires cfg.schema[id.t].pk != Some(c) && DistinctFor(cfg, s, id, cfg.schema[id.t].props[c].kind, v)
    ensures var kind := cfg.schema[id.t].props[c].kind;
            var st := SetProperty(cfg, s, id, name, v);
            && (st.r.Ok? ==> CellHolds(cfg.schema, s, st.s, kind, id, c, v))
            && Touches(cfg.schema, s, st.s, id, c, ValueNames(cfg.schema, kind, v))
  {
    var kind := cfg.schema[id.t].props[c].kind;
    SetsColumn(cfg, s, id, name, v, c);
    FrameRefl(cfg.schema, s, {});
    SetPropertyHolds(cfg, s, {}, s, id, c, kind, v, false);
    SetPropertyFrame(cfg, s, id, c, kind, v, false);
  }

  // ---- A batch set of a plain value -------------------------------------------------------------

  lemma {:induction false} EachPlain(cfg: Config, s: State, t: TypeName, keys: seq<ObjKey>, c: nat, v: Value, i: nat)
    requires WellFormed(cfg.schema, s) && t in cfg.schema && c < |cfg.schema[t].props| && i <= |keys|
    requires (!Locked(cfg) || cfg.schema[t].pk != Some(c)) && Plain(cfg.schema[t].props[c].kind, v)
    requires Accepts(s.rows.Keys, cfg.schema[t].props[c].kind, v)
    requires forall key | key in keys :: RowId(t, key) in s.rows
    ensures var st := SetEach(cfg, s, t, keys, c, v, i);
            && st.r.Ok?
            && st.s.rows.Keys == s.rows.Keys && st.s.next == s.next
            && forall id, c': nat :: Get(st.s, id, c') ==
                 if c' == c && id.t == t && id.key in keys[i..]
                 then PlainCell(s.rows.Keys, cfg.schema[t].props[c].kind, v)
                 else Get(s, id, c')
    decreases |keys| - i
  {
    hide SetPropertyImpl, WellFormed, Accepts, PlainCell, Plain;
    if i < |keys| {
      var kind := cfg.schema[t].props[c].kind;
      var st := SetPropertyImpl(cfg, s, RowId(t, keys[i]), c, kind, v, false);
      PlainIsSet(cfg, s, RowId(t, keys[i]), c, v);
      SetPropertySafe(cfg, s, RowId(t, keys[i]), c, kind, v, false);
      EachPlain(cfg, st.s, t, keys, c, v, i + 1);
      assert keys[i..] == [keys[i]] + keys[i + 1..];
    }
  }

  /** The query is asked once, on the store as it is before the first write: the batch goes through the rows it gives
      then, in its order.
   */
  lemma BatchAsksOnce(s: State, t: TypeName, q: Query)
    ensures forall key :: key in Snapshot(s, t, q) <==> key in q(s) && RowId(t, key) in s.rows
    ensures (forall key | key in q(s) :: RowId(t, key) in s.rows) ==> Snapshot(s, t, q) == q(s)
  {
  }

  lemma SetAllIsEach(cfg: Config, s: State, t: TypeName, q: Query, name: string, v: Value, c: nat)
    requires t in cfg.schema && NamesColumn(cfg.schema[t], name, c) && MaySet(cfg, t, c)
    ensures SetAll(cfg, s, t, q, name, v)
         == SetEach(cfg.(policy := ForceCreate), s, t, Snapshot(s, t, q), c, v, 0)
  {
  }

  /** A batch over no row succeeds, and one that fails at its first row ends there. */
  lemma SetEachStart(cfg: Config, s: State, t: TypeName, keys: seq<ObjKey>, c: nat, v: Value)
    requires t in cfg.schema && c < |cfg.schema[t].props|
    ensures keys == [] ==> SetEach(cfg, s, t, keys, c, v, 0) == Step(s, Ok(()))
    ensures keys != [] ==>
              var st := SetPropertyImpl(cfg, s, RowId(t, keys[0]), c, cfg.schema[t].props[c].kind, v, false);
              st.r.Err? ==> SetEach(cfg, s, t, keys, c, v, 0) == st
  {
  }

  /** A batch set of a null, a scalar, a managed object or a sequence of these succeeds exactly if the column takes it
      or there is no row. Then exactly the rows the query gave at the start hold it, and every other cell is as it was.
      If it fails, at most the cell of the first row has changed, and not even that unless it is a list.
   */
  lemma BatchSetsPlain(cfg: Config, s: State, t: TypeName, q: Query, name: string, v: Value, c: nat)
    requires WellFormed(cfg.schema, s) && t in cfg.schema && NamesColumn(cfg.schema[t], name, c)
    requires MaySet(cfg, t, c) && Plain(cfg.schema[t].props[c].kind, v)
    ensures var kind := cfg.schema[t].props[c].kind;
            var keys := Snapshot(s, t, q);
            var st := SetAll(cfg, s, t, q, name, v);
            && (st.r.Ok? <==>
                  Accepts(s.rows.Keys, kind, v) || forall key | key in q(s) :: RowId(t, key) !in s.rows)
            && (st.r.Ok? ==>
                  && st.s.rows.Keys == s.rows.Keys && st.s.next == s.next
                  && forall id, c': nat :: Get(st.s, id, c') ==
                       if c' == c && id.t == t && id in s.rows && id.key in q(s)
                       then PlainCell(s.rows.Keys, kind, v)
                       else Get(s, id, c'))
            && (st.r.Err? ==> OnlyCell(s, st.s, RowId(t, keys[0]), c) && (kind.One? ==> st.s == s))
  {
    hide SetPropertyImpl, Accepts, PlainCell, Plain, Attached, SetEach, Snapshot;
    SetAllIsEach(cfg, s, t, q, name, v, c);
    SetEachStart(cfg.(policy := ForceCreate), s, t, Snapshot(s, t, q), c, v);
    var kind := cfg.schema[t].props[c].kind;
    var keys := Snapshot(s, t, q);
    BatchAsksOnce(s, t, q);
    assert keys != [] ==> keys[0] in keys;
    var force := cfg.(policy := ForceCreate);
    if Accepts(s.rows.Keys, kind, v) {
      EachPlain(force, s, t, keys, c, v, 0);
      assert keys[0..] == keys;
    } else if keys != [] {
      PlainIsSet(force, s, RowId(t, keys[0]), c, v);
    }
  }

  // ---- A batch set of any value -----------------------------------------------------------------

  /** The position of the first row that cannot be set, or the end. */
  function FirstFailure(cfg: Config, s: State, t: TypeName, keys: seq<ObjKey>, c: nat, v: Value, i: nat): (n: nat)
    requires t in cfg.schema && c < |cfg.schema[t].props| && i <= |keys|
    ensures i <= n <= |keys|
    decreases |keys| - i
  {
    if i == |keys| then i
    else
      var st := SetPropertyImpl(cfg, s, RowId(t, keys[i]), c, cfg.schema[t].props[c].kind, v, false);
      if st.r.Err? then i else FirstFailure(cfg, st.s, t, keys, c, v, i + 1)
  }

  /** The batch may write to this row: it comes up to the first failure. */
  predicate Reached(keys: seq<ObjKey>, i: nat, n: nat, key: ObjKey)
    requires i <= n <= |keys|
  {
    key in keys[i..if n < |keys| then n + 1 else n]
  }

  ghost predicate CanSetEach(cfg: Config, s: State, t: TypeName, keys: seq<ObjKey>, c: nat) {
    && Forced(cfg, s) && t in cfg.schema && c < |cfg.schema[t].props|
    && (!Locked(cfg) || cfg.schema[t].pk != Some(c))
    && forall key | key in keys :: RowId(t, key) in s.rows
  }

  lemma EachStep(cfg: Config, s: State, t: TypeName, keys: seq<ObjKey>, c: nat, v: Value, i: nat)
    requires CanSetEach(cfg, s, t, keys, c) && i < |keys|
    ensures var kind := cfg.schema[t].props[c].kind;
            var id := RowId(t, keys[i]);
            var st := SetPropertyImpl(cfg, s, id, c, kind, v, false);
            && Adds(s, st.s, id, c) && CanSetEach(cfg, st.s, t, keys, c) && s.rows.Keys <= st.s.rows.Keys
            && (st.r.Ok? ==> CellHoldsNew(cfg.schema, s, st.s, kind, id, c, v))
            && (st.r.Err? && kind.One? ==> Get(st.s, id, c) == Get(s, id, c))
  {
    hide CellHoldsNew, AssignList, Unbox, WellFormed;
    var kind := cfg.schema[t].props[c].kind;
    var id := RowId(t, keys[i]);
    HasRow(cfg, s, t, c, keys[i], keys);
    SetPropertySafe(cfg, s, id, c, kind, v, false);
    SetPropertyAdds(cfg, s, id, c, kind, v, false);
    SetHoldsNew(cfg, s, id, c, kind, v, false);
    if kind.One? {
      UnboxAdds(cfg, s, kind.elem, v, Get(s, id, c), false);
    }
  }

  lemma HasRow(cfg: Config, s: State, t: TypeName, c: nat, key: ObjKey, keys: seq<ObjKey>)
    requires CanSetEach(cfg, s, t, keys, c) && key in keys
    ensures Writable(cfg, s, RowId(t, key), c, cfg.schema[t].props[c].kind)
    ensures TargetsIn(cfg.schema[t].props[c].kind, cfg.schema.Keys)
  {
  }

  /** Rows the batch does not come to are as they were, and of the others at most the one cell has changed. */
  lemma {:induction false} EachKeeps(cfg: Config, s: State, t: TypeName, keys: seq<ObjKey>, c: nat, v: Value, i: nat)
    requires CanSetEach(cfg, s, t, keys, c) && i <= |keys|
    ensures var st := SetEach(cfg, s, t, keys, c, v, i);
            var n := FirstFailure(cfg, s, t, keys, c, v, i);
            && s.rows.Keys <= st.s.rows.Keys
            && (st.r.Ok? <==> n == |keys|)
            && (forall id | id in s.rows && !(id.t == t && Reached(keys, i, n, id.key)) :: st.s.rows[id] == s.rows[id])
            && (forall key | key in keys :: OthersKept(s, st.s, RowId(t, key), c))
    decreases |keys| - i
  {
    hide SetPropertyImpl, Forced;
    if i < |keys| {
      var st := SetPropertyImpl(cfg, s, RowId(t, keys[i]), c, cfg.schema[t].props[c].kind, v, false);
      EachStep(cfg, s, t, keys, c, v, i);
      if st.r.Ok? {
        EachKeeps(cfg, st.s, t, keys, c, v, i + 1);
        var n := FirstFailure(cfg, st.s, t, keys, c, v, i + 1);
        ReachedStep(keys, i, n);
      }
    }
  }

  lemma ReachedStep(keys: seq<ObjKey>, i: nat, n: nat)
    requires i < n <= |keys|
    ensures forall key :: Reached(keys, i, n, key) <==> key == keys[i] || Reached(keys, i + 1, n, key)
  {
    var end := if n < |keys| then n + 1 else n;
    assert keys[i..end] == [keys[i]] + keys[i + 1..end];
  }

  /** A row the batch does not come to holds what it held. */
  lemma {:induction false} EachStays(cfg: Config, base: State, s: State, t: TypeName, keys: seq<ObjKey>, c: nat,
                                     v: Value, i: nat, key: ObjKey)
    requires CanSetEach(cfg, s, t, keys, c) && i <= |keys| && base.rows.Keys <= s.rows.Keys
    requires forall k | k in keys :: RowId(t, k) in base.rows
    requires key in keys && !Reached(keys, i, FirstFailure(cfg, s, t, keys, c, v, i), key)
    requires CellHoldsNew(cfg.schema, base, s, cfg.schema[t].props[c].kind, RowId(t, key), c, v)
    ensures CellHoldsNew(cfg.schema, base, SetEach(cfg, s, t, keys, c, v, i).s, cfg.schema[t].props[c].kind,
                         RowId(t, key), c, v)
    decreases |keys| - i
  {
    hide SetPropertyImpl, Forced, CellHoldsNew;
    if i < |keys| {
      var id := RowId(t, keys[i]);
      var st := SetPropertyImpl(cfg, s, id, c, cfg.schema[t].props[c].kind, v, false);
      EachStep(cfg, s, t, keys, c, v, i);
      ReachedFirst(keys, i, FirstFailure(cfg, s, t, keys, c, v, i), key);
      CellHoldsNewStays(cfg.schema, base, base, s, st.s, id, cfg.schema[t].props[c].kind, RowId(t, key), c, v);
      if st.r.Ok? {
        ReachedStep(keys, i, FirstFailure(cfg, st.s, t, keys, c, v, i + 1));
        EachStays(cfg, base, st.s, t, keys, c, v, i + 1, key);
      }
    }
  }

  lemma ReachedFirst(keys: seq<ObjKey>, i: nat, n: nat, key: ObjKey)
    requires i < |keys| && i <= n <= |keys| && !Reached(keys, i, n, key)
    ensures key != keys[i]
  {
    var end := if n < |keys| then n + 1 else n;
    assert keys[i..end][0] == keys[i];
  }

  /** Each row that was written before the end or the first failure holds the value, with objects made for it that are
      new: only a row that also comes at the failure may have been spoilt by it.
   */
  lemma {:induction false} EachHoldsNew(cfg: Config, s: State, t: TypeName, keys: seq<ObjKey>, c: nat, v: Value, i: nat,
                                        j: nat)
    requires CanSetEach(cfg, s, t, keys, c) && i <= |keys| && i <= j < FirstFailure(cfg, s, t, keys, c, v, i)
    requires var n := FirstFailure(cfg, s, t, keys, c, v, i); n < |keys| ==> keys[j] != keys[n]
    ensures CellHoldsNew(cfg.schema, s, SetEach(cfg, s, t, keys, c, v, i).s, cfg.schema[t].props[c].kind,
                         RowId(t, keys[j]), c, v)
    decreases |keys| - i
  {
    hide SetPropertyImpl, Forced, CellHoldsNew;
    var kind := cfg.schema[t].props[c].kind;
    var st := SetPropertyImpl(cfg, s, RowId(t, keys[i]), c, kind, v, false);
    var n := FirstFailure(cfg, s, t, keys, c, v, i);
    EachStep(cfg, s, t, keys, c, v, i);
    if j' :| i < j' < n && keys[j'] == keys[j] {
      var s' := SetEach(cfg, st.s, t, keys, c, v, i + 1).s;
      EachHoldsNew(cfg, st.s, t, keys, c, v, i + 1, j');
      CellHoldsNewStays(cfg.schema, s, st.s, s', s', RowId(t, keys[j]), kind, RowId(t, keys[j]), c, v);
    } else {
      assert j == i;
      NotReached(keys, i, n);
      EachStays(cfg, s, st.s, t, keys, c, v, i + 1, keys[i]);
    }
  }

  lemma NotReached(keys: seq<ObjKey>, i: nat, n: nat)
    requires i < n <= |keys| && (n < |keys| ==> keys[i] != keys[n]) && forall j | i < j < n :: keys[j] != keys[i]
    ensures !Reached(keys, i + 1, n, keys[i])
  {
  }

  /** A batch set of any value, nested dictionaries included: every row the query gave at the start and that is written
      before the end or the first failure holds the value, each with new objects of its own making. It succeeds exactly
      if there is no failure. Rows it does not come to are as they were, and so are all other cells.
   */
  lemma BatchHoldsNew(cfg: Config, s: State, t: TypeName, q: Query, name: string, v: Value, c: nat)
    requires WellFormed(cfg.schema, s) && t in cfg.schema && NamesColumn(cfg.schema[t], name, c) && MaySet(cfg, t, c)
    ensures var force := cfg.(policy := ForceCreate);
            var kind := cfg.schema[t].props[c].kind;
            var keys := Snapshot(s, t, q);
            var n := FirstFailure(force, s, t, keys, c, v, 0);
            var st := SetAll(cfg, s, t, q, name, v);
            && (st.r.Ok? <==> n == |keys|)
            && (forall j | 0 <= j < n && (n < |keys| ==> keys[j] != keys[n]) ::
                  CellHoldsNew(cfg.schema, s, st.s, kind, RowId(t, keys[j]), c, v))
            && (forall id | id in s.rows && !(id.t == t && Reached(keys, 0, n, id.key)) ::
                  id in st.s.rows && st.s.rows[id] == s.rows[id])
            && (forall key | key in keys :: OthersKept(s, st.s, RowId(t, key), c))
  {
    hide CellHoldsNew, SetPropertyImpl, Attached, SetEach, FirstFailure, Snapshot;
    SetAllIsEach(cfg, s, t, q, name, v, c);
    BatchAsksOnce(s, t, q);
    var force := cfg.(policy := ForceCreate);
    var keys := Snapshot(s, t, q);
    var n := FirstFailure(force, s, t, keys, c, v, 0);
    EachKeeps(force, s, t, keys, c, v, 0);
    forall j | 0 <= j < n && (n < |keys| ==> keys[j] != keys[n])
      ensures CellHoldsNew(cfg.schema, s, SetAll(cfg, s, t, q, name, v).s, cfg.schema[t].props[c].kind,
                           RowId(t, keys[j]), c, v)
    {
      EachHoldsNew(force, s, t, keys, c, v, 0, j);
    }
  }

  /** Outside a migration a dictionary with a primary key is set on one row only: the second one fails, as the object
      exists by then.
   */
  lemma KeyedIsSetOnce(cfg: Config, s: State, t: TypeName, q: Query, name: string, v: Value, c: nat)
    requires WellFormed(cfg.schema, s) && t in cfg.schema && NamesColumn(cfg.schema[t], name, c)
    requires cfg.schema[t].pk != Some(c) && !cfg.migrating && v.Dict?
    requires var kind := cfg.schema[t].props[c].kind;
             kind.One? && kind.elem.LinkElem? && HasKey(cfg.schema, kind.elem.target)
    requires |Snapshot(s, t, q)| > 1
    ensures var force := cfg.(policy := ForceCreate);
            var n := FirstFailure(force, s, t, Snapshot(s, t, q), c, v, 0);
            && n <= 1
            && (n == 1 ==> SetAll(cfg, s, t, q, name, v).r == Err(DuplicatePrimaryKey))
  {
    hide SetPropertyImpl, WellFormed, CellHoldsNew, HasUsableKey;
    var force := cfg.(policy := ForceCreate);
    var keys := Snapshot(s, t, q);
    var kind := cfg.schema[t].props[c].kind;
    var st := SetPropertyImpl(force, s, RowId(t, keys[0]), c, kind, v, false);
    EachStep(force, s, t, keys, c, v, 0);
    if st.r.Ok? {
      MadeName(force, s, kind, v, st.s, RowId(t, keys[0]), c);
      FailsOnName(force, st.s, RowId(t, keys[1]), c, kind, v);
      assert FirstFailure(force, st.s, t, keys, c, v, 1) == 1;
      assert SetEach(force, st.s, t, keys, c, v, 1) == Step(st.s, Err(DuplicatePrimaryKey));
    }
  }

  /** A dictionary that has been set has a usable key, and a row has it. */
  lemma MadeName(cfg: Config, s: State, kind: Kind, v: Value, s': State, id: RowId, c: nat)
    requires kind.One? && kind.elem.LinkElem? && HasKey(cfg.schema, kind.elem.target) && v.Dict?
    requires CellHoldsNew(cfg.schema, s, s', kind, id, c, v)
    ensures HasUsableKey(cfg.schema, kind.elem.target, v)
    ensures exists k :: RowId(kind.elem.target, k) in s'.rows
              && Get(s', RowId(kind.elem.target, k), cfg.schema[kind.elem.target].pk.value)
                 == KeyOf(cfg.schema, kind.elem.target, v)
  {
    var k := Get(s', id, c).key;
    assert HoldsNew(cfg.schema, s, s', kind.elem.target, k, v);
  }

  lemma FailsOnName(cfg: Config, s: State, id: RowId, c: nat, kind: Kind, v: Value)
    requires Forced(cfg, s) && !cfg.migrating && TargetsIn(kind, cfg.schema.Keys)
    requires kind.One? && kind.elem.LinkElem? && HasKey(cfg.schema, kind.elem.target) && v.Dict?
    requires HasUsableKey(cfg.schema, kind.elem.target, v)
    requires exists k :: RowId(kind.elem.target, k) in s.rows
               && Get(s, RowId(kind.elem.target, k), cfg.schema[kind.elem.target].pk.value)
                  == KeyOf(cfg.schema, kind.elem.target, v)
    ensures SetPropertyImpl(cfg, s, id, c, kind, v, false) == Step(s, Err(DuplicatePrimaryKey))
  {
    var t := kind.elem.target;
    assert FindRow(cfg.schema, s, t, KeyOf(cfg.schema, t, v)).Some?;
    assert Open(cfg, s, t, v, Passed(cfg, Get(s, id, c))) == Step(s, Err(DuplicatePrimaryKey));
    assert Create(cfg, s, t, v, Passed(cfg, Get(s, id, c))) == Step(s, Err(DuplicatePrimaryKey));
  }
}
