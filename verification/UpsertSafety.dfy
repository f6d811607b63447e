/** What every call keeps, whatever it is given and whether or not it succeeds: a well-formed store,
    the rows and their keys, and, unless a create is forced in a migration, the uniqueness of primary keys.
 */
module UpsertSafety {
  import opened Store
  import opened Upsert

  /** Rows are never lost, new rows have new keys, the log only grows, and it grows whenever something changes. */
  ghost predicate Evolves(s: State, s': State) {
    && s.rows.Keys <= s'.rows.Keys
    && (forall id | id in s'.rows && id !in s.rows :: s.next <= id.key)
    && s.next <= s'.next
    && s.log <= s'.log
    && (s.log == s'.log ==> s == s')
  }

  /** Rows keep their keys: only a forced create in a migration may make a second row with a key. */
  predicate Locked(cfg: Config) {
    !cfg.migrating || !cfg.policy.ForceCreate?
  }

  ghost predicate NamesKept(sch: Schema, s: State, s': State) {
    forall id | id in s.rows :: NameOf(sch, s', id) == NameOf(sch, s, id)
  }

  ghost predicate Safe(cfg: Config, s: State, s': State) {
    && Evolves(s, s')
    && WellFormed(cfg.schema, s')
    && (Locked(cfg) ==> NamesKept(cfg.schema, s, s'))
    && (Locked(cfg) && Unique(cfg.schema, s) ==> Unique(cfg.schema, s'))
  }

  lemma SafeTrans(cfg: Config, s: State, s1: State, s2: State)
    requires Safe(cfg, s, s1) && Safe(cfg, s1, s2)
    ensures Safe(cfg, s, s2)
  {
    if Locked(cfg) {
      forall id | id in s.rows
        ensures NameOf(cfg.schema, s2, id) == NameOf(cfg.schema, s, id)
      {
        assert id in s1.rows;
      }
    }
  }

  /** Cell c of row id may be written: it exists, and it is not a key that is locked. */
  ghost predicate Writable(cfg: Config, s: State, id: RowId, c: nat, kind: Kind) {
    && id in s.rows
    && id.t in cfg.schema
    && c < |cfg.schema[id.t].props|
    && cfg.schema[id.t].props[c].kind == kind
    && (!Locked(cfg) || cfg.schema[id.t].pk != Some(c))
  }

  lemma PutSafe(cfg: Config, s: State, id: RowId, c: nat, kind: Kind, x: Cell, w: Write)
    requires WellFormed(cfg.schema, s) && Writable(cfg, s, id, c, kind)
    requires CellOk(s.rows.Keys, kind, x)
    ensures Safe(cfg, s, Put(s, id, c, x, w))
  {
    var s' := Put(s, id, c, x, w);
    PutOk(cfg.schema, s, id, c, x, w);
    if Locked(cfg) {
      forall id' | id' in s.rows
        ensures NameOf(cfg.schema, s', id') == NameOf(cfg.schema, s, id')
      {
      }
    }
  }

  lemma SetSlotSafe(cfg: Config, s: State, id: RowId, c: nat, elem: Elem, index: nat, x: Cell)
    requires WellFormed(cfg.schema, s) && Writable(cfg, s, id, c, Many(elem))
    requires SlotOk(s.rows.Keys, elem, x) && index < |Items(s, id, c)|
    ensures Safe(cfg, s, SetSlot(s, id, c, index, x))
  {
    var items := Items(s, id, c);
    assert CellOk(s.rows.Keys, Many(elem), Get(s, id, c));
    PutSafe(cfg, s, id, c, Many(elem), List(items[index := x]), SlotAssigned(Loc(id, c), index, items[index], x));
  }

  lemma AppendSafe(cfg: Config, s: State, id: RowId, c: nat, elem: Elem, x: Cell)
    requires WellFormed(cfg.schema, s) && Writable(cfg, s, id, c, Many(elem))
    requires SlotOk(s.rows.Keys, elem, x)
    ensures Safe(cfg, s, Append(s, id, c, x))
  {
    assert CellOk(s.rows.Keys, Many(elem), Get(s, id, c));
    PutSafe(cfg, s, id, c, Many(elem), List(Items(s, id, c) + [x]), Appended(Loc(id, c), x));
  }

  lemma RemoveSlotSafe(cfg: Config, s: State, id: RowId, c: nat, elem: Elem, index: nat)
    requires WellFormed(cfg.schema, s) && Writable(cfg, s, id, c, Many(elem))
    requires index < |Items(s, id, c)|
    ensures Safe(cfg, s, RemoveSlot(s, id, c, index))
  {
    var items := Items(s, id, c);
    assert CellOk(s.rows.Keys, Many(elem), Get(s, id, c));
    PutSafe(cfg, s, id, c, Many(elem), List(items[..index] + items[index + 1..]), Removed(Loc(id, c), index));
  }

  lemma ClearSafe(cfg: Config, s: State, id: RowId, c: nat, elem: Elem)
    requires WellFormed(cfg.schema, s) && Writable(cfg, s, id, c, Many(elem))
    ensures Safe(cfg, s, Clear(s, id, c))
  {
    if Items(s, id, c) != [] {
      PutSafe(cfg, s, id, c, Many(elem), List([]), Cleared(Loc(id, c)));
    }
  }

  lemma PlaceItemSafe(cfg: Config, s: State, id: RowId, c: nat, elem: Elem, before: Cell, x: Cell, i: nat, sz: nat)
    requires WellFormed(cfg.schema, s) && Writable(cfg, s, id, c, Many(elem))
    requires SlotOk(s.rows.Keys, elem, x)
    ensures Safe(cfg, s, PlaceItem(s, id, c, before, x, i, sz).s)
  {
    if i >= sz {
      AppendSafe(cfg, s, id, c, elem, x);
    } else if i < |Items(s, id, c)| {
      SetSlotSafe(cfg, s, id, c, elem, i, x);
    }
  }

  lemma {:induction false} TrimSafe(cfg: Config, s: State, id: RowId, c: nat, elem: Elem, index: nat, sz: nat)
    requires WellFormed(cfg.schema, s) && Writable(cfg, s, id, c, Many(elem))
    ensures Safe(cfg, s, Trim(s, id, c, index, sz).s)
    decreases sz
  {
    if index < sz <= |Items(s, id, c)| {
      var s1 := RemoveSlot(s, id, c, sz - 1);
      RemoveSlotSafe(cfg, s, id, c, elem, sz - 1);
      TrimSafe(cfg, s1, id, c, elem, index, sz - 1);
      SafeTrans(cfg, s, s1, Trim(s1, id, c, index, sz - 1).s);
    }
  }

  lemma AddRowSafe(cfg: Config, s: State, t: TypeName, row: Row)
    requires WellFormed(cfg.schema, s) && t in cfg.schema && RowOk(s.rows.Keys, cfg.schema[t], row)
    requires Locked(cfg) && HasKey(cfg.schema, t) ==>
               forall id | id in s.rows && id.t == t ::
                 Get(s, id, cfg.schema[t].pk.value) != row[cfg.schema[t].pk.value]
    ensures Safe(cfg, s, AddRow(s, t, row))
  {
    var s' := AddRow(s, t, row);
    AddRowOk(cfg.schema, s, t, row);
    var added := RowId(t, s.next);
    forall id | id in s.rows
      ensures NameOf(cfg.schema, s', id) == NameOf(cfg.schema, s, id)
    {
    }
    if Locked(cfg) {
      forall id | id in s.rows
        ensures NameOf(cfg.schema, s', id) != NameOf(cfg.schema, s', added)
      {
      }
    }
  }

  lemma PrimaryCellOk(sch: Schema, t: TypeName, v: Value, ids: set<RowId>)
    requires HasKey(sch, t) && PrimaryCell(sch, t, v).Ok?
    ensures CellOk(ids, sch[t].props[sch[t].pk.value].kind, PrimaryCell(sch, t, v).value)
  {
  }

  lemma OpenSafe(cfg: Config, s: State, t: TypeName, v: Value, current: Option<ObjKey>)
    requires WellFormed(cfg.schema, s) && t in cfg.schema
    ensures var o := Open(cfg, s, t, v, current);
            && Safe(cfg, s, o.s)
            && (o.r.Ok? ==> RowId(t, o.r.value.key) in o.s.rows)
            && (o.r.Ok? ==> (o.r.value.created <==> RowId(t, o.r.value.key) !in s.rows))
            && (o.r.Ok? && Locked(cfg) ==> o.r.value.skipPrimary)
  {
    var o := Open(cfg, s, t, v, current);
    var os := cfg.schema[t];
    var row := InitialRow(os);
    forall c | 0 <= c < |row|
      ensures CellOk(s.rows.Keys, os.props[c].kind, row[c])
    {
      InitialOk(s.rows.Keys, os.props[c].kind);
    }
    if os.pk.Some? {
      var pk := PrimaryCell(cfg.schema, t, v);
      if pk.Ok? && o.s != s {
        if FindRow(cfg.schema, s, t, pk.value).None? {
          PrimaryCellOk(cfg.schema, t, v, s.rows.Keys);
          row := row[os.pk.value := pk.value];
        }
        AddRowSafe(cfg, s, t, row);
      }
    } else if o.s != s {
      AddRowSafe(cfg, s, t, row);
    }
  }

  lemma {:induction false} CreateSafe(cfg: Config, s: State, t: TypeName, v: Value, current: Option<ObjKey>)
    requires WellFormed(cfg.schema, s) && t in cfg.schema
    ensures var st := Create(cfg, s, t, v, current);
            && Safe(cfg, s, st.s)
            && (st.r.Ok? ==> RowId(t, st.r.value) in st.s.rows)
    decreases Nest(v), v, 3, 0
  {
    hide Open, Populate, WellFormed, Unique;
    OpenSafe(cfg, s, t, v, current);
    var o := Open(cfg, s, t, v, current);
    if o.r.Ok? {
      PopulateSafe(cfg, o.s, t, o.r.value, v, 0);
      SafeTrans(cfg, s, o.s, Populate(cfg, o.s, t, o.r.value, v, 0).s);
    }
  }

  lemma {:induction false} PopulateSafe(cfg: Config, s: State, t: TypeName, row: Opened, v: Value, i: nat)
    requires WellFormed(cfg.schema, s) && t in cfg.schema && i <= |cfg.schema[t].props|
    requires RowId(t, row.key) in s.rows && (!Locked(cfg) || row.skipPrimary)
    ensures Safe(cfg, s, Populate(cfg, s, t, row, v, i).s)
    decreases Nest(v), v, 2, |cfg.schema[t].props| - i
  {
    hide PopulateOne, Unique;
    if i < |cfg.schema[t].props| {
      PopulateOneSafe(cfg, s, t, row, v, i);
      var p := PopulateOne(cfg, s, t, row, v, i);
      if p.r.Ok? {
        PopulateSafe(cfg, p.s, t, row, v, i + 1);
        SafeTrans(cfg, s, p.s, Populate(cfg, p.s, t, row, v, i + 1).s);
      }
    }
  }

  lemma {:induction false} PopulateOneSafe(cfg: Config, s: State, t: TypeName, row: Opened, v: Value, i: nat)
    requires WellFormed(cfg.schema, s) && t in cfg.schema && i < |cfg.schema[t].props|
    requires RowId(t, row.key) in s.rows && (!Locked(cfg) || row.skipPrimary)
    ensures Safe(cfg, s, PopulateOne(cfg, s, t, row, v, i).s)
    decreases Nest(v), v, 1, 0
  {
    hide SetPropertyImpl;
    var prop := cfg.schema[t].props[i];
    if !(row.skipPrimary && cfg.schema[t].pk == Some(i)) && v.Dict? {
      if prop.name in v.fields {
        SetPropertySafe(cfg, s, RowId(t, row.key), i, prop.kind, v.fields[prop.name], false);
      } else if prop.default.Some? {
        SetPropertySafe(cfg, s, RowId(t, row.key), i, prop.kind, prop.default.value, true);
      }
    }
  }

  lemma {:induction false} SetPropertySafe(cfg: Config, s: State, id: RowId, c: nat, kind: Kind, v: Value,
                                           isDefault: bool)
    requires WellFormed(cfg.schema, s) && Writable(cfg, s, id, c, kind) && TargetsIn(kind, cfg.schema.Keys)
    ensures Safe(cfg, s, SetPropertyImpl(cfg, s, id, c, kind, v, isDefault).s)
    decreases Nest(v), v, 6, 0
  {
    hide AssignList, Unbox, Unique;
    if IsNullable(kind) && v.Null? {
      PutSafe(cfg, s, id, c, kind, NullCell, Assigned(Loc(id, c), Get(s, id, c), NullCell));
    } else if kind.Many? {
      AssignListSafe(cfg, s, id, c, kind.elem, v);
    } else if kind.One? {
      var u := Unbox(cfg, s, kind.elem, v, Get(s, id, c), false);
      UnboxSafe(cfg, s, kind.elem, v, Get(s, id, c), false);
      if u.r.Ok? {
        PutSafe(cfg, u.s, id, c, kind, u.r.value, Assigned(Loc(id, c), Get(u.s, id, c), u.r.value));
        SafeTrans(cfg, s, u.s, Assign(u.s, id, c, u.r.value));
      }
    }
  }

  lemma {:induction false} UnboxSafe(cfg: Config, s: State, elem: Elem, v: Value, current: Cell, inList: bool)
    requires WellFormed(cfg.schema, s) && (elem.LinkElem? ==> elem.target in cfg.schema)
    ensures var st := Unbox(cfg, s, elem, v, current, inList);
            && Safe(cfg, s, st.s)
            && (st.r.Ok? ==> SlotOk(st.s.rows.Keys, elem, st.r.value))
    decreases Nest(v), v, 4, 0
  {
    hide Create;
    if elem.LinkElem? && !v.Managed? {
      CreateSafe(cfg, s, elem.target, v, Passed(cfg, current));
    }
  }

  lemma {:induction false} AssignListSafe(cfg: Config, s: State, id: RowId, c: nat, elem: Elem, v: Value)
    requires WellFormed(cfg.schema, s) && Writable(cfg, s, id, c, Many(elem))
    requires elem.LinkElem? ==> elem.target in cfg.schema
    ensures Safe(cfg, s, AssignList(cfg, s, id, c, elem, v).s)
    decreases Nest(v), v, 5, if v.Vec? then |v.elems| + 1 else 0
  {
    hide AssignFrom, Trim, WellFormed, Unique;
    ClearSafe(cfg, s, id, c, elem);
    if v.Vec? {
      var s1 := Prepared(cfg, s, id, c);
      var sz := Reusable(cfg, s, id, c);
      var l := AssignFrom(cfg, s1, id, c, elem, v, 0, sz);
      AssignFromSafe(cfg, s1, id, c, elem, v, 0, sz);
      SafeTrans(cfg, s, s1, l.s);
      TrimSafe(cfg, l.s, id, c, elem, |v.elems|, sz);
      SafeTrans(cfg, s, l.s, Trim(l.s, id, c, |v.elems|, sz).s);
    }
  }

  lemma {:induction false} AssignFromSafe(cfg: Config, s: State, id: RowId, c: nat, elem: Elem, v: Value,
                                          i: nat, sz: nat)
    requires WellFormed(cfg.schema, s) && Writable(cfg, s, id, c, Many(elem))
    requires elem.LinkElem? ==> elem.target in cfg.schema
    requires v.Vec? && i <= |v.elems|
    ensures Safe(cfg, s, AssignFrom(cfg, s, id, c, elem, v, i, sz).s)
    decreases Nest(v), v, 5, |v.elems| - i
  {
    hide AssignOne, WellFormed, Unique;
    if i < |v.elems| {
      var a := AssignOne(cfg, s, id, c, elem, v, i, sz);
      AssignOneSafe(cfg, s, id, c, elem, v, i, sz);
      if a.r.Ok? {
        AssignFromSafe(cfg, a.s, id, c, elem, v, i + 1, sz);
        SafeTrans(cfg, s, a.s, AssignFrom(cfg, a.s, id, c, elem, v, i + 1, sz).s);
      }
    }
  }

  lemma {:induction false} AssignOneSafe(cfg: Config, s: State, id: RowId, c: nat, elem: Elem, v: Value,
                                         i: nat, sz: nat)
    requires WellFormed(cfg.schema, s) && Writable(cfg, s, id, c, Many(elem))
    requires elem.LinkElem? ==> elem.target in cfg.schema
    requires v.Vec? && i < |v.elems|
    ensures Safe(cfg, s, AssignOne(cfg, s, id, c, elem, v, i, sz).s)
    decreases Nest(v), v, 4, 1
  {
    hide Unbox, PlaceItem;
    if i < sz && i >= |Items(s, id, c)| {
    } else {
      var current := if i < sz then Items(s, id, c)[i] else NullCell;
      var u := Unbox(cfg, s, elem, v.elems[i], current, true);
      UnboxSafe(cfg, s, elem, v.elems[i], current, true);
      if u.r.Ok? {
        PlaceItemSafe(cfg, u.s, id, c, elem, current, u.r.value, i, sz);
        SafeTrans(cfg, s, u.s, PlaceItem(u.s, id, c, current, u.r.value, i, sz).s);
      }
    }
  }
}
