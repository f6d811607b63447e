/** The log tells everything: carrying out the writes of a call again, from the store it started from, ends in the very
    store the call ended in, whether it succeeded or not.
 */
module UpsertReplay {
  import opened Store
  import opened Upsert
  import opened ResultsBatch

  // ---- Carrying out the log ---------------------------------------------------------------------

  function SetCell(rows: map<RowId, Row>, loc: Loc, x: Cell): map<RowId, Row> {
    if loc.id in rows && loc.c < |rows[loc.id]| then rows[loc.id := rows[loc.id][loc.c := x]] else rows
  }

  /** The items of a list, none if the cell is no list. */
  function ListAt(rows: map<RowId, Row>, loc: Loc): seq<Cell> {
    if loc.id in rows && loc.c < |rows[loc.id]| && rows[loc.id][loc.c].List? then rows[loc.id][loc.c].items else []
  }

  function Redo(s: State, w: Write): State {
    match w
    case Created(id, row) => State(s.rows[id := row], id.key + 1, s.log + [w])
    case Assigned(loc, _, after) => State(SetCell(s.rows, loc, after), s.next, s.log + [w])
    case SlotAssigned(loc, index, _, after) =>
      var items := ListAt(s.rows, loc);
      if index >= |items| then s else State(SetCell(s.rows, loc, List(items[index := after])), s.next, s.log + [w])
    case Appended(loc, item) =>
      State(SetCell(s.rows, loc, List(ListAt(s.rows, loc) + [item])), s.next, s.log + [w])
    case Removed(loc, index) =>
      var items := ListAt(s.rows, loc);
      if index >= |items| then s
      else State(SetCell(s.rows, loc, List(items[..index] + items[index + 1..])), s.next, s.log + [w])
    case Cleared(loc) => State(SetCell(s.rows, loc, List([])), s.next, s.log + [w])
  }

  function Replay(s: State, ws: seq<Write>): State
    decreases |ws|
  {
    if ws == [] then s else Redo(Replay(s, ws[..|ws| - 1]), ws[|ws| - 1])
  }

  /** s' is what the writes since s make of s. */
  ghost predicate Logged(s: State, s': State) {
    s.log <= s'.log && Replay(s, s'.log[|s.log|..]) == s'
  }

  lemma {:induction false} ReplayJoin(s: State, ws: seq<Write>, ws': seq<Write>)
    ensures Replay(s, ws + ws') == Replay(Replay(s, ws), ws')
    decreases |ws'|
  {
    hide Redo;
    if ws' == [] {
      assert ws + ws' == ws;
    } else {
      var most := ws'[..|ws'| - 1];
      ReplayJoin(s, ws, most);
      assert (ws + ws')[..|ws + ws'| - 1] == ws + most;
    }
  }

  lemma LoggedTrans(s: State, s1: State, s2: State)
    requires Logged(s, s1) && Logged(s1, s2)
    ensures Logged(s, s2)
  {
    hide Redo, Replay;
    var ws, ws' := s1.log[|s.log|..], s2.log[|s1.log|..];
    ReplayJoin(s, ws, ws');
    assert s1.log == s.log + ws && s2.log == s1.log + ws';
    assert s2.log[|s.log|..] == ws + ws';
  }

  lemma LoggedNone(s: State)
    ensures Logged(s, s)
  {
    assert s.log[|s.log|..] == [];
  }

  lemma LoggedOne(s: State, s': State, w: Write)
    requires s' == Redo(s, w) && s'.log == s.log + [w]
    ensures Logged(s, s')
  {
    assert s'.log[|s.log|..] == [w];
    assert [w][..0] == [];
    assert Replay(s, []) == s;
  }

  // ---- Single writes ----------------------------------------------------------------------------

  lemma AssignLogged(s: State, id: RowId, c: nat, x: Cell)
    ensures Logged(s, Assign(s, id, c, x))
  {
    LoggedOne(s, Assign(s, id, c, x), Assigned(Loc(id, c), Get(s, id, c), x));
  }

  lemma AddRowLogged(s: State, t: TypeName, row: Row)
    ensures Logged(s, AddRow(s, t, row))
  {
    LoggedOne(s, AddRow(s, t, row), Created(RowId(t, s.next), row));
  }

  lemma ClearLogged(s: State, id: RowId, c: nat)
    ensures Logged(s, Clear(s, id, c))
  {
    LoggedNone(s);
    if Items(s, id, c) != [] {
      LoggedOne(s, Clear(s, id, c), Cleared(Loc(id, c)));
    }
  }

  lemma {:induction false} TrimLogged(s: State, id: RowId, c: nat, index: nat, sz: nat)
    ensures Logged(s, Trim(s, id, c, index, sz).s)
    decreases sz
  {
    LoggedNone(s);
    if index < sz <= |Items(s, id, c)| {
      var s1 := RemoveSlot(s, id, c, sz - 1);
      LoggedOne(s, s1, Removed(Loc(id, c), sz - 1));
      TrimLogged(s1, id, c, index, sz - 1);
      LoggedTrans(s, s1, Trim(s1, id, c, index, sz - 1).s);
    }
  }

  lemma PlaceItemLogged(s: State, id: RowId, c: nat, before: Cell, x: Cell, i: nat, sz: nat)
    ensures Logged(s, PlaceItem(s, id, c, before, x, i, sz).s)
  {
    LoggedNone(s);
    if i >= sz {
      LoggedOne(s, Append(s, id, c, x), Appended(Loc(id, c), x));
    } else if Differs(before, x) && i < |Items(s, id, c)| {
      LoggedOne(s, SetSlot(s, id, c, i, x), SlotAssigned(Loc(id, c), i, Items(s, id, c)[i], x));
    }
  }

  lemma OpenLogged(cfg: Config, s: State, t: TypeName, v: Value, current: Option<ObjKey>)
    requires t in cfg.schema
    ensures Logged(s, Open(cfg, s, t, v, current).s)
  {
    hide Logged, AddRow;
    LoggedNone(s);
    var row := InitialRow(cfg.schema[t]);
    AddRowLogged(s, t, row);
    if HasKey(cfg.schema, t) && PrimaryCell(cfg.schema, t, v).Ok? {
      AddRowLogged(s, t, row[cfg.schema[t].pk.value := PrimaryCell(cfg.schema, t, v).value]);
    }
  }

  // ---- Whole calls ------------------------------------------------------------------------------

  /** Creating and updating. */
  lemma {:induction false} CreateLogged(cfg: Config, s: State, t: TypeName, v: Value, current: Option<ObjKey>)
    requires t in cfg.schema
    ensures Logged(s, Create(cfg, s, t, v, current).s)
    decreases Nest(v), v, 3, 0
  {
    hide Logged, Open, Populate;
    OpenLogged(cfg, s, t, v, current);
    var o := Open(cfg, s, t, v, current);
    if o.r.Ok? {
      PopulateLogged(cfg, o.s, t, o.r.value, v, 0);
      LoggedTrans(s, o.s, Populate(cfg, o.s, t, o.r.value, v, 0).s);
    }
  }

  lemma {:induction false} PopulateLogged(cfg: Config, s: State, t: TypeName, row: Opened, v: Value, i: nat)
    requires t in cfg.schema && i <= |cfg.schema[t].props|
    ensures Logged(s, Populate(cfg, s, t, row, v, i).s)
    decreases Nest(v), v, 2, |cfg.schema[t].props| - i
  {
    hide Logged, PopulateOne;
    LoggedNone(s);
    if i < |cfg.schema[t].props| {
      PopulateOneLogged(cfg, s, t, row, v, i);
      var p := PopulateOne(cfg, s, t, row, v, i);
      if p.r.Ok? {
        PopulateLogged(cfg, p.s, t, row, v, i + 1);
        LoggedTrans(s, p.s, Populate(cfg, p.s, t, row, v, i + 1).s);
      }
    }
  }

  lemma {:induction false} PopulateOneLogged(cfg: Config, s: State, t: TypeName, row: Opened, v: Value, i: nat)
    requires t in cfg.schema && i < |cfg.schema[t].props|
    ensures Logged(s, PopulateOne(cfg, s, t, row, v, i).s)
    decreases Nest(v), v, 1, 0
  {
    hide Logged, SetPropertyImpl;
    LoggedNone(s);
    var prop := cfg.schema[t].props[i];
    if v.Dict? {
      if prop.name in v.fields {
        SetPropertyLogged(cfg, s, RowId(t, row.key), i, prop.kind, v.fields[prop.name], false);
      } else if prop.default.Some? {
        SetPropertyLogged(cfg, s, RowId(t, row.key), i, prop.kind, prop.default.value, true);
      }
    }
  }

  lemma {:induction false} SetPropertyLogged(cfg: Config, s: State, id: RowId, c: nat, kind: Kind, v: Value,
                                             isDefault: bool)
    requires TargetsIn(kind, cfg.schema.Keys)
    ensures Logged(s, SetPropertyImpl(cfg, s, id, c, kind, v, isDefault).s)
    decreases Nest(v), v, 6, 0
  {
    hide Logged, AssignList, Unbox, Assign;
    LoggedNone(s);
    AssignLogged(s, id, c, NullCell);
    if kind.Many? {
      AssignListLogged(cfg, s, id, c, kind.elem, v);
    } else if kind.One? {
      UnboxLogged(cfg, s, kind.elem, v, Get(s, id, c), false);
      var u := Unbox(cfg, s, kind.elem, v, Get(s, id, c), false);
      if u.r.Ok? {
        AssignLogged(u.s, id, c, u.r.value);
        LoggedTrans(s, u.s, Assign(u.s, id, c, u.r.value));
      }
    }
  }

  lemma {:induction false} UnboxLogged(cfg: Config, s: State, elem: Elem, v: Value, current: Cell, inList: bool)
    requires elem.LinkElem? ==> elem.target in cfg.schema
    ensures Logged(s, Unbox(cfg, s, elem, v, current, inList).s)
    decreases Nest(v), v, 4, 0
  {
    hide Logged, Create;
    LoggedNone(s);
    if elem.LinkElem? && !v.Managed? {
      CreateLogged(cfg, s, elem.target, v, Passed(cfg, current));
    }
  }

  lemma {:induction false} AssignListLogged(cfg: Config, s: State, id: RowId, c: nat, elem: Elem, v: Value)
    requires elem.LinkElem? ==> elem.target in cfg.schema
    ensures Logged(s, AssignList(cfg, s, id, c, elem, v).s)
    decreases Nest(v), v, 5, if v.Vec? then |v.elems| + 1 else 0
  {
    hide Logged, AssignFrom, Trim, Clear;
    LoggedNone(s);
    ClearLogged(s, id, c);
    if v.Vec? {
      var s1, sz := Prepared(cfg, s, id, c), Reusable(cfg, s, id, c);
      AssignFromLogged(cfg, s1, id, c, elem, v, 0, sz);
      var l := AssignFrom(cfg, s1, id, c, elem, v, 0, sz);
      LoggedTrans(s, s1, l.s);
      TrimLogged(l.s, id, c, |v.elems|, sz);
      LoggedTrans(s, l.s, Trim(l.s, id, c, |v.elems|, sz).s);
    }
  }

  lemma {:induction false} AssignFromLogged(cfg: Config, s: State, id: RowId, c: nat, elem: Elem, v: Value, i: nat,
                                            sz: nat)
    requires elem.LinkElem? ==> elem.target in cfg.schema
    requires v.Vec? && i <= |v.elems|
    ensures Logged(s, AssignFrom(cfg, s, id, c, elem, v, i, sz).s)
    decreases Nest(v), v, 5, |v.elems| - i
  {
    hide Logged, AssignOne;
    LoggedNone(s);
    if i < |v.elems| {
      AssignOneLogged(cfg, s, id, c, elem, v, i, sz);
      var a := AssignOne(cfg, s, id, c, elem, v, i, sz);
      if a.r.Ok? {
        AssignFromLogged(cfg, a.s, id, c, elem, v, i + 1, sz);
        LoggedTrans(s, a.s, AssignFrom(cfg, a.s, id, c, elem, v, i + 1, sz).s);
      }
    }
  }

  lemma {:induction false} AssignOneLogged(cfg: Config, s: State, id: RowId, c: nat, elem: Elem, v: Value, i: nat,
                                           sz: nat)
    requires elem.LinkElem? ==> elem.target in cfg.schema
    requires v.Vec? && i < |v.elems|
    ensures Logged(s, AssignOne(cfg, s, id, c, elem, v, i, sz).s)
    decreases Nest(v), v, 4, 1
  {
    hide Logged, Unbox, PlaceItem;
    LoggedNone(s);
    if !(i < sz && i >= |Items(s, id, c)|) {
      var before := if i < sz then Items(s, id, c)[i] else NullCell;
      UnboxLogged(cfg, s, elem, v.elems[i], before, true);
      var u := Unbox(cfg, s, elem, v.elems[i], before, true);
      if u.r.Ok? {
        PlaceItemLogged(u.s, id, c, before, u.r.value, i, sz);
        LoggedTrans(s, u.s, PlaceItem(u.s, id, c, before, u.r.value, i, sz).s);
      }
    }
  }

  /** Setting by name, on one object and on all rows of a query. */
  lemma SetLogged(cfg: Config, s: State, id: RowId, name: string, v: Value)
    requires id.t in cfg.schema
    ensures Logged(s, SetProperty(cfg, s, id, name, v).s)
  {
    hide Logged, SetPropertyImpl;
    LoggedNone(s);
    var c := WritableColumn(cfg, id.t, name);
    if c.Ok? {
      SetPropertyLogged(cfg, s, id, c.value, cfg.schema[id.t].props[c.value].kind, v, false);
    }
  }

  lemma {:induction false} SetEachLogged(cfg: Config, s: State, t: TypeName, keys: seq<ObjKey>, c: nat, v: Value,
                                         i: nat)
    requires t in cfg.schema && c < |cfg.schema[t].props| && i <= |keys|
    ensures Logged(s, SetEach(cfg, s, t, keys, c, v, i).s)
    decreases |keys| - i
  {
    hide Logged, SetPropertyImpl;
    LoggedNone(s);
    if i < |keys| {
      var kind := cfg.schema[t].props[c].kind;
      var st := SetPropertyImpl(cfg, s, RowId(t, keys[i]), c, kind, v, false);
      SetPropertyLogged(cfg, s, RowId(t, keys[i]), c, kind, v, false);
      if st.r.Ok? {
        SetEachLogged(cfg, st.s, t, keys, c, v, i + 1);
        LoggedTrans(s, st.s, SetEach(cfg, st.s, t, keys, c, v, i + 1).s);
      }
    }
  }

  lemma BatchLogged(cfg: Config, s: State, t: TypeName, q: Query, name: string, v: Value)
    requires t in cfg.schema
    ensures Logged(s, SetAll(cfg, s, t, q, name, v).s)
  {
    hide Logged;
    LoggedNone(s);
    var c := WritableColumn(cfg, t, name);
    if c.Ok? {
      SetEachLogged(cfg.(policy := ForceCreate), s, t, Snapshot(s, t, q), c.value, v, 0);
    }
  }
}
