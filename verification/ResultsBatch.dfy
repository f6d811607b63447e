/** Setting one property on every row of a live query, through a snapshot of the matching rows. */
module ResultsBatch {
  import opened Store
  import opened Upsert
  import opened UpsertSafety

  /** A live query: the rows it gives, in its own order, depend on the store it is asked of. It may filter, sort,
      limit or drop duplicates as it likes.
   */
  type Query = State -> seq<ObjKey>

  /** The first column of that name. */
  function PropertyFrom(os: ObjectSchema, name: string, i: nat): (r: Option<nat>)
    requires i <= |os.props|
    ensures r.Some? ==> i <= r.value < |os.props| && os.props[r.value].name == name
    ensures forall j | i <= j < (if r.Some? then r.value else |os.props|) :: os.props[j].name != name
    decreases |os.props| - i
  {
    if i == |os.props| then None else if os.props[i].name == name then Some(i) else PropertyFrom(os, name, i + 1)
  }

  function PropertyForName(os: ObjectSchema, name: string): Option<nat> {
    PropertyFrom(os, name, 0)
  }

  /** Check the property and its right to be written. */
  function WritableColumn(cfg: Config, t: TypeName, name: string): Result<nat>
    requires t in cfg.schema
  {
    match PropertyForName(cfg.schema[t], name)
    case None => Err(InvalidProperty)
    case Some(c) => if cfg.schema[t].pk == Some(c) && !cfg.migrating then Err(ModifyPrimaryKey) else Ok(c)
  }

  /** Set one property of one object. */
  function SetProperty(cfg: Config, s: State, id: RowId, name: string, v: Value): Step<()>
    requires id.t in cfg.schema
  {
    if id !in s.rows then Step(s, Err(InvalidObject))
    else
      match WritableColumn(cfg, id.t, name)
      case Err(e) => Step(s, Err(e))
      case Ok(c) => SetPropertyImpl(cfg, s, id, c, cfg.schema[id.t].props[c].kind, v, false)
  }

  /** The rows of type t a query gives now, in its order. */
  function Snapshot(s: State, t: TypeName, q: Query): seq<ObjKey> {
    Attached(s, t, q(s))
  }

  function Attached(s: State, t: TypeName, keys: seq<ObjKey>): (r: seq<ObjKey>)
    ensures forall key :: key in r <==> key in keys && RowId(t, key) in s.rows
    ensures (forall key | key in keys :: RowId(t, key) in s.rows) ==> r == keys
  {
    if keys == [] then []
    else
      assert keys == [keys[0]] + keys[1..];
      (if RowId(t, keys[0]) in s.rows then [keys[0]] else []) + Attached(s, t, keys[1..])
  }

  /** Write to the rows of a snapshot from position i on, stopping at the first failure. */
  function SetEach(cfg: Config, s: State, t: TypeName, keys: seq<ObjKey>, c: nat, v: Value, i: nat): Step<()>
    requires t in cfg.schema && c < |cfg.schema[t].props| && i <= |keys|
    decreases |keys| - i
  {
    if i == |keys| then Step(s, Ok(()))
    else
      var st := SetPropertyImpl(cfg, s, RowId(t, keys[i]), c, cfg.schema[t].props[c].kind, v, false);
      if st.r.Err? then st else SetEach(cfg, st.s, t, keys, c, v, i + 1)
  }

  function SetAll(cfg: Config, s: State, t: TypeName, q: Query, name: string, v: Value): Step<()>
    requires t in cfg.schema
  {
    match WritableColumn(cfg, t, name)
    case Err(e) => Step(s, Err(e))
    case Ok(c) => SetEach(cfg.(policy := ForceCreate), s, t, Snapshot(s, t, q), c, v, 0)
  }

  /** The cell a scalar or null is stored as, if the column takes it. */
  function ScalarCell(kind: Kind, v: Value): Result<Cell>
    requires kind.One? && kind.elem.ScalarElem?
  {
    if v.Null? && kind.nullable then Ok(NullCell)
    else if v.Prim? && Matches(kind.elem.base, v.x) then Ok(Val(v.x))
    else Err(BadCast)
  }

  // ---- Safety -----------------------------------------------------------------------------------

  lemma SetPropertyKeepsSafe(cfg: Config, s: State, id: RowId, name: string, v: Value)
    requires WellFormed(cfg.schema, s) && id.t in cfg.schema
    ensures Safe(cfg.(policy := ForceCreate), s, SetProperty(cfg, s, id, name, v).s)
    ensures PropertyForName(cfg.schema[id.t], name) != cfg.schema[id.t].pk ==>
              Safe(cfg, s, SetProperty(cfg, s, id, name, v).s)
  {
    var c := WritableColumn(cfg, id.t, name);
    if id in s.rows && c.Ok? {
      if cfg.schema[id.t].pk == Some(c.value) {
        KeyColumnSafe(cfg, s, id, c.value, v);
      } else {
        SetPropertySafe(cfg, s, id, c.value, cfg.schema[id.t].props[c.value].kind, v, false);
      }
    }
  }

  /** A migration may set a key column under any policy. */
  lemma KeyColumnSafe(cfg: Config, s: State, id: RowId, c: nat, v: Value)
    requires WellFormed(cfg.schema, s) && cfg.migrating && id in s.rows
    requires id.t in cfg.schema && cfg.schema[id.t].pk == Some(c)
    ensures Safe(cfg.(policy := ForceCreate), s,
                 SetPropertyImpl(cfg, s, id, c, cfg.schema[id.t].props[c].kind, v, false).s)
  {
    var kind := cfg.schema[id.t].props[c].kind;
    var x := ScalarCell(kind, v);
    if x.Ok? {
      PutSafe(cfg.(policy := ForceCreate), s, id, c, kind, x.value, Assigned(Loc(id, c), Get(s, id, c), x.value));
    }
  }

  lemma {:induction false} SetEachSafe(cfg: Config, s: State, t: TypeName, keys: seq<ObjKey>, c: nat, v: Value, i: nat)
    requires WellFormed(cfg.schema, s) && t in cfg.schema && c < |cfg.schema[t].props| && i <= |keys|
    requires !Locked(cfg) || cfg.schema[t].pk != Some(c)
    requires forall key | key in keys :: RowId(t, key) in s.rows
    ensures Safe(cfg, s, SetEach(cfg, s, t, keys, c, v, i).s)
    decreases |keys| - i
  {
    if i < |keys| {
      var kind := cfg.schema[t].props[c].kind;
      var st := SetPropertyImpl(cfg, s, RowId(t, keys[i]), c, kind, v, false);
      SetPropertySafe(cfg, s, RowId(t, keys[i]), c, kind, v, false);
      if st.r.Ok? {
        SetEachSafe(cfg, st.s, t, keys, c, v, i + 1);
        SafeTrans(cfg, s, st.s, SetEach(cfg, st.s, t, keys, c, v, i + 1).s);
      }
    }
  }

  lemma SetAllSafe(cfg: Config, s: State, t: TypeName, q: Query, name: string, v: Value)
    requires WellFormed(cfg.schema, s) && t in cfg.schema
    ensures Safe(cfg.(policy := ForceCreate), s, SetAll(cfg, s, t, q, name, v).s)
  {
    var c := WritableColumn(cfg, t, name);
    if c.Ok? {
      SetEachSafe(cfg.(policy := ForceCreate), s, t, Snapshot(s, t, q), c.value, v, 0);
    }
  }

  // ---- A batch write of a scalar ----------------------------------------------------------------

  lemma SetOneScalar(cfg: Config, s: State, id: RowId, c: nat, v: Value)
    requires WellFormed(cfg.schema, s) && id in s.rows && c < |cfg.schema[id.t].props|
    requires !Locked(cfg) || cfg.schema[id.t].pk != Some(c)
    requires cfg.policy.ForceCreate?
    requires cfg.schema[id.t].props[c].kind.One? && cfg.schema[id.t].props[c].kind.elem.ScalarElem?
    requires ScalarCell(cfg.schema[id.t].props[c].kind, v).Ok?
    ensures var kind := cfg.schema[id.t].props[c].kind;
            var x := ScalarCell(kind, v).value;
            var s' := Assign(s, id, c, x);
            && SetPropertyImpl(cfg, s, id, c, kind, v, false) == Step(s', Ok(()))
            && WellFormed(cfg.schema, s')
            && s'.rows.Keys == s.rows.Keys && s'.next == s.next && |s'.log| == |s.log| + 1
            && forall id', c': nat :: Get(s', id', c') == if id' == id && c' == c then x else Get(s, id', c')
  {
    var kind := cfg.schema[id.t].props[c].kind;
    assert SetPropertyImpl(cfg, s, id, c, kind, v, false) == Step(Assign(s, id, c, ScalarCell(kind, v).value), Ok(()));
    SetPropertySafe(cfg, s, id, c, kind, v, false);
    assert Assign(s, id, c, ScalarCell(kind, v).value).rows.Keys == s.rows.Keys;
  }

  lemma {:induction false} SetEachScalar(cfg: Config, s: State, t: TypeName, keys: seq<ObjKey>, c: nat, v: Value,
                                         i: nat)
    requires WellFormed(cfg.schema, s) && t in cfg.schema && c < |cfg.schema[t].props| && i <= |keys|
    requires !Locked(cfg) || cfg.schema[t].pk != Some(c)
    requires cfg.policy.ForceCreate?
    requires cfg.schema[t].props[c].kind.One? && cfg.schema[t].props[c].kind.elem.ScalarElem?
    requires ScalarCell(cfg.schema[t].props[c].kind, v).Ok?
    requires forall key | key in keys :: RowId(t, key) in s.rows
    ensures var st := SetEach(cfg, s, t, keys, c, v, i);
            && st.r.Ok?
            && st.s.rows.Keys == s.rows.Keys && st.s.next == s.next
            && |st.s.log| == |s.log| + |keys| - i
            && forall id, c': nat :: Get(st.s, id, c') ==
                 if c' == c && id.t == t && id.key in keys[i..] then ScalarCell(cfg.schema[t].props[c].kind, v).value
                 else Get(s, id, c')
    decreases |keys| - i
  {
    hide SetPropertyImpl, WellFormed, Put;
    if i < |keys| {
      var x := ScalarCell(cfg.schema[t].props[c].kind, v).value;
      SetOneScalar(cfg, s, RowId(t, keys[i]), c, v);
      SetEachScalar(cfg, Assign(s, RowId(t, keys[i]), c, x), t, keys, c, v, i + 1);
      assert keys[i..] == [keys[i]] + keys[i + 1..];
    }
  }

  /** Exactly the rows the query gave before the call hold the new value afterwards, whatever it gives once they
      are written; every other cell is as it was.
   */
  lemma BatchSetsMatchedRows(cfg: Config, s: State, t: TypeName, q: Query, name: string, v: Value)
    requires WellFormed(cfg.schema, s) && t in cfg.schema
    requires WritableColumn(cfg, t, name).Ok?
    requires var kind := cfg.schema[t].props[WritableColumn(cfg, t, name).value].kind;
             kind.One? && kind.elem.ScalarElem?
    ensures var c := WritableColumn(cfg, t, name).value;
            var x := ScalarCell(cfg.schema[t].props[c].kind, v);
            var st := SetAll(cfg, s, t, q, name, v);
            && (st.r.Ok? <==> x.Ok? || Snapshot(s, t, q) == [])
            && (st.r.Err? ==> st.s == s)
            && (st.r.Ok? ==>
                  && st.s.rows.Keys == s.rows.Keys && st.s.next == s.next
                  && |st.s.log| == |s.log| + |Snapshot(s, t, q)|
                  && forall id, c': nat :: Get(st.s, id, c') ==
                       if c' == c && id.t == t && id.key in Snapshot(s, t, q) then x.value else Get(s, id, c'))
  {
    hide SetPropertyImpl;
    var c := WritableColumn(cfg, t, name).value;
    var kind := cfg.schema[t].props[c].kind;
    var keys := Snapshot(s, t, q);
    var force := cfg.(policy := ForceCreate);
    if ScalarCell(kind, v).Ok? {
      SetEachScalar(force, s, t, keys, c, v, 0);
      assert keys[0..] == keys;
    } else if keys != [] {
      SetEachFails(force, s, t, keys, c, v);
    }
  }

  lemma SetEachFails(cfg: Config, s: State, t: TypeName, keys: seq<ObjKey>, c: nat, v: Value)
    requires t in cfg.schema && c < |cfg.schema[t].props| && keys != []
    requires cfg.schema[t].props[c].kind.One? && cfg.schema[t].props[c].kind.elem.ScalarElem?
    requires ScalarCell(cfg.schema[t].props[c].kind, v).Err?
    ensures SetEach(cfg, s, t, keys, c, v, 0) == Step(s, Err(BadCast))
  {
    assert SetPropertyImpl(cfg, s, RowId(t, keys[0]), c, cfg.schema[t].props[c].kind, v, false)
        == Step(s, Err(BadCast));
  }
}
