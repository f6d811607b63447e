/** A forced create of any value reads back: repeated names, keyless objects and migrations included. Every object in
    the value is a new row that holds what was supplied, and no later step of the call disturbs it.
 */
module UpsertNew {
  import opened Store
  import opened Upsert
  import opened UpsertSafety
  import opened UpsertFrame
  import opened UpsertReadback
  import opened UpsertForced

  // ---- What a new row holds ---------------------------------------------------------------------

  /** Row k of type t is not in base and holds v: its key, every supplied property, and defaults otherwise. */
  predicate HoldsNew(sch: Schema, base: State, s: State, t: TypeName, k: ObjKey, v: Value)
    decreases Nest(v), v, 4, 0
  {
    && t in sch && RowId(t, k) in s.rows && RowId(t, k) !in base.rows
    && (HasKey(sch, t) ==>
          HasUsableKey(sch, t, v) && Get(s, RowId(t, k), sch[t].pk.value) == KeyOf(sch, t, v))
    && (v.Dict? ==> HoldsNewFrom(sch, base, s, t, k, v, 0))
  }

  predicate HoldsNewFrom(sch: Schema, base: State, s: State, t: TypeName, k: ObjKey, v: Value, i: nat)
    requires v.Dict? && t in sch && i <= |sch[t].props|
    decreases Nest(v), v, 3, |sch[t].props| - i
  {
    i < |sch[t].props| ==> HoldsNewProp(sch, base, s, t, k, v, i) && HoldsNewFrom(sch, base, s, t, k, v, i + 1)
  }

  predicate HoldsNewProp(sch: Schema, base: State, s: State, t: TypeName, k: ObjKey, v: Value, i: nat)
    requires v.Dict? && t in sch && i < |sch[t].props|
    decreases Nest(v), v, 2, 0
  {
    var prop := sch[t].props[i];
    var x := Source(v, prop);
    sch[t].pk == Some(i) || prop.kind.LinkingObjects? ||
    if x.Some? then CellHoldsNew(sch, base, s, prop.kind, RowId(t, k), i, x.value)
    else Get(s, RowId(t, k), i) == Initial(prop.kind) && (RejectsNull(prop.kind) ==> v.allowMissing)
  }

  predicate CellHoldsNew(sch: Schema, base: State, s: State, kind: Kind, id: RowId, c: nat, v: Value)
    decreases Nest(v), v, 6, 0
  {
    var x := Get(s, id, c);
    match kind
    case LinkingObjects(_, _) => false
    case One(elem, nullable) =>
      if nullable && v.Null? then x.NullCell? else SlotHoldsNew(sch, base, s, elem, x, v, false)
    case Many(elem) =>
      || v == ListOf(Loc(id, c))
      || (x.List? && v.Null? && x.items == [])
      || (x.List? && v.Vec? && |x.items| == |v.elems| && ItemsHoldNew(sch, base, s, elem, x.items, v, 0))
  }

  predicate ItemsHoldNew(sch: Schema, base: State, s: State, elem: Elem, items: seq<Cell>, v: Value, i: nat)
    requires v.Vec? && i <= |items| <= |v.elems|
    decreases Nest(v), v, 5, |v.elems| - i
  {
    i < |items| ==>
      && SlotHoldsNew(sch, base, s, elem, items[i], v.elems[i], true)
      && ItemsHoldNew(sch, base, s, elem, items, v, i + 1)
  }

  predicate SlotHoldsNew(sch: Schema, base: State, s: State, elem: Elem, x: Cell, v: Value, inList: bool)
    decreases Nest(v), v, 5, 0
  {
    match elem
    case ScalarElem(_) => v.Prim? && x == Val(v.x)
    case LinkElem(target) =>
      if v.Managed? then x == Link(v.id.key) && (inList ==> v.id.t == target)
      else x.Link? && HoldsNew(sch, base, s, target, x.key, v)
  }

  // ---- Later writes do not matter ---------------------------------------------------------------

  /** Rows made since base keep their content, up to the row that is being written, which was there. */
  ghost predicate Later(base: State, base': State, s: State, s': State, own: RowId) {
    && base.rows.Keys <= base'.rows.Keys && own in base'.rows && KeepsRows(s, s', {own})
  }

  lemma {:induction false} HoldsNewStays(sch: Schema, base: State, base': State, s: State, s': State, own: RowId,
                                         t: TypeName, k: ObjKey, v: Value)
    requires Later(base, base', s, s', own) && HoldsNew(sch, base', s, t, k, v)
    ensures HoldsNew(sch, base, s', t, k, v)
    decreases Nest(v), v, 4, 0
  {
    if v.Dict? {
      HoldsNewFromStays(sch, base, base', s, s', own, t, k, v, 0);
    }
  }

  lemma {:induction false} HoldsNewFromStays(sch: Schema, base: State, base': State, s: State, s': State, own: RowId,
                                             t: TypeName, k: ObjKey, v: Value, i: nat)
    requires Later(base, base', s, s', own) && v.Dict? && t in sch && i <= |sch[t].props|
    requires forall c: nat | i <= c :: Get(s', RowId(t, k), c) == Get(s, RowId(t, k), c)
    requires HoldsNewFrom(sch, base', s, t, k, v, i)
    ensures HoldsNewFrom(sch, base, s', t, k, v, i)
    decreases Nest(v), v, 3, |sch[t].props| - i
  {
    if i < |sch[t].props| {
      HoldsNewPropStays(sch, base, base', s, s', own, t, k, v, i);
      HoldsNewFromStays(sch, base, base', s, s', own, t, k, v, i + 1);
    }
  }

  lemma {:induction false} HoldsNewPropStays(sch: Schema, base: State, base': State, s: State, s': State, own: RowId,
                                             t: TypeName, k: ObjKey, v: Value, i: nat)
    requires Later(base, base', s, s', own) && v.Dict? && t in sch && i < |sch[t].props|
    requires Get(s', RowId(t, k), i) == Get(s, RowId(t, k), i)
    requires HoldsNewProp(sch, base', s, t, k, v, i)
    ensures HoldsNewProp(sch, base, s', t, k, v, i)
    decreases Nest(v), v, 2, 0
  {
    var prop := sch[t].props[i];
    var x := Source(v, prop);
    if sch[t].pk != Some(i) && !prop.kind.LinkingObjects? && x.Some? {
      CellHoldsNewStays(sch, base, base', s, s', own, prop.kind, RowId(t, k), i, x.value);
    }
  }

  lemma {:induction false} CellHoldsNewStays(sch: Schema, base: State, base': State, s: State, s': State, own: RowId,
                                             kind: Kind, id: RowId, c: nat, v: Value)
    requires Later(base, base', s, s', own) && Get(s', id, c) == Get(s, id, c)
    requires CellHoldsNew(sch, base', s, kind, id, c, v)
    ensures CellHoldsNew(sch, base, s', kind, id, c, v)
    decreases Nest(v), v, 6, 0
  {
    var x := Get(s, id, c);
    if kind.One? && !(kind.nullable && v.Null?) {
      SlotHoldsNewStays(sch, base, base', s, s', own, kind.elem, x, v, false);
    } else if kind.Many? && x.List? && v.Vec? {
      ItemsHoldNewStay(sch, base, base', s, s', own, kind.elem, x.items, v, 0);
    }
  }

  lemma {:induction false} ItemsHoldNewStay(sch: Schema, base: State, base': State, s: State, s': State, own: RowId,
                                            elem: Elem, items: seq<Cell>, v: Value, i: nat)
    requires Later(base, base', s, s', own) && v.Vec? && i <= |items| <= |v.elems|
    requires ItemsHoldNew(sch, base', s, elem, items, v, i)
    ensures ItemsHoldNew(sch, base, s', elem, items, v, i)
    decreases Nest(v), v, 5, |v.elems| - i
  {
    if i < |items| {
      SlotHoldsNewStays(sch, base, base', s, s', own, elem, items[i], v.elems[i], true);
      ItemsHoldNewStay(sch, base, base', s, s', own, elem, items, v, i + 1);
    }
  }

  lemma {:induction false} SlotHoldsNewStays(sch: Schema, base: State, base': State, s: State, s': State, own: RowId,
                                             elem: Elem, x: Cell, v: Value, inList: bool)
    requires Later(base, base', s, s', own) && SlotHoldsNew(sch, base', s, elem, x, v, inList)
    ensures SlotHoldsNew(sch, base, s', elem, x, v, inList)
    decreases Nest(v), v, 5, 0
  {
    if elem.LinkElem? && !v.Managed? {
      HoldsNewStays(sch, base, base', s, s', own, elem.target, x.key, v);
    }
  }

  // ---- A forced create leaves what it made ------------------------------------------------------

  ghost predicate Forced(cfg: Config, s: State) {
    cfg.policy.ForceCreate? && WellFormed(cfg.schema, s)
  }

  /** Columns from i on, but for the key, are as in a row just made. */
  ghost predicate Blank(sch: Schema, s: State, id: RowId, i: nat)
    requires id.t in sch
  {
    forall c: nat | i <= c < |sch[id.t].props| && sch[id.t].pk != Some(c) ::
      Get(s, id, c) == Initial(sch[id.t].props[c].kind)
  }

  lemma OpenBlank(cfg: Config, s: State, t: TypeName, v: Value, current: Option<ObjKey>)
    requires Forced(cfg, s) && t in cfg.schema
    ensures var o := Open(cfg, s, t, v, current);
            o.r.Ok? ==> o.r.value.created && Blank(cfg.schema, o.s, RowId(t, o.r.value.key), 0)
  {
  }

  lemma {:induction false} CreateHoldsNew(cfg: Config, s: State, t: TypeName, v: Value, current: Option<ObjKey>)
    requires Forced(cfg, s) && t in cfg.schema
    ensures var st := Create(cfg, s, t, v, current);
            st.r.Ok? ==> HoldsNew(cfg.schema, s, st.s, t, st.r.value, v)
    decreases Nest(v), v, 3, 0
  {
    hide Open, Populate, WellFormed;
    var o := Open(cfg, s, t, v, current);
    if o.r.Ok? {
      var id := RowId(t, o.r.value.key);
      OpenSafe(cfg, s, t, v, current);
      OpenAdds(cfg, s, t, v, current);
      OpenBlank(cfg, s, t, v, current);
      PopulateSafe(cfg, o.s, t, o.r.value, v, 0);
      var st := Populate(cfg, o.s, t, o.r.value, v, 0);
      if st.r.Ok? {
        if HasKey(cfg.schema, t) {
          OpenHasKey(cfg, s, t, v, current);
          OpenedKey(cfg, s, t, v, current);
          PopulateKey(cfg, o.s, t, o.r.value, v, 0);
        }
        if v.Dict? {
          PopulateHoldsNew(cfg, o.s, o.s, t, o.r.value, v, 0);
          HoldsNewFromStays(cfg.schema, s, o.s, st.s, st.s, id, t, o.r.value.key, v, 0);
        }
      }
    }
  }

  lemma OpenHasKey(cfg: Config, s: State, t: TypeName, v: Value, current: Option<ObjKey>)
    requires HasKey(cfg.schema, t) && Open(cfg, s, t, v, current).r.Ok?
    ensures HasUsableKey(cfg.schema, t, v)
  {
  }

  lemma {:induction false} PopulateHoldsNew(cfg: Config, base: State, s: State, t: TypeName, row: Opened, v: Value,
                                            i: nat)
    requires Forced(cfg, s) && t in cfg.schema && i <= |cfg.schema[t].props| && v.Dict?
    requires RowId(t, row.key) in base.rows && base.rows.Keys <= s.rows.Keys && row.created
    requires !Locked(cfg) || row.skipPrimary
    requires Blank(cfg.schema, s, RowId(t, row.key), i)
    ensures var st := Populate(cfg, s, t, row, v, i);
            st.r.Ok? ==> HoldsNewFrom(cfg.schema, base, st.s, t, row.key, v, i)
    decreases Nest(v), v, 2, |cfg.schema[t].props| - i
  {
    hide PopulateOne, HoldsNewProp, WellFormed;
    if i < |cfg.schema[t].props| {
      var p := PopulateOne(cfg, s, t, row, v, i);
      var id := RowId(t, row.key);
      PopulateOneSafe(cfg, s, t, row, v, i);
      PopulateOneAdds(cfg, s, t, row, v, i);
      if p.r.Ok? {
        PopulateOneHoldsNew(cfg, s, t, row, v, i);
        PopulateHoldsNew(cfg, base, p.s, t, row, v, i + 1);
        PopulateAdds(cfg, p.s, t, row, v, i + 1);
        PopulateKeepsBelow(cfg, p.s, t, row, v, i + 1, i);
        HoldsNewPropStays(cfg.schema, base, s, p.s, Populate(cfg, p.s, t, row, v, i + 1).s, id, t, row.key, v, i);
      }
    }
  }

  lemma {:induction false} PopulateKeepsBelow(cfg: Config, s: State, t: TypeName, row: Opened, v: Value, i: nat, c: nat)
    requires Forced(cfg, s) && t in cfg.schema && c < i <= |cfg.schema[t].props|
    requires RowId(t, row.key) in s.rows && (!Locked(cfg) || row.skipPrimary)
    ensures Get(Populate(cfg, s, t, row, v, i).s, RowId(t, row.key), c) == Get(s, RowId(t, row.key), c)
    decreases |cfg.schema[t].props| - i
  {
    hide PopulateOne, WellFormed;
    if i < |cfg.schema[t].props| {
      PopulateOneSafe(cfg, s, t, row, v, i);
      PopulateOneAdds(cfg, s, t, row, v, i);
      var p := PopulateOne(cfg, s, t, row, v, i);
      if p.r.Ok? {
        PopulateKeepsBelow(cfg, p.s, t, row, v, i + 1, c);
      }
    }
  }

  lemma {:induction false} PopulateOneHoldsNew(cfg: Config, s: State, t: TypeName, row: Opened, v: Value, i: nat)
    requires Forced(cfg, s) && t in cfg.schema && i < |cfg.schema[t].props| && v.Dict?
    requires RowId(t, row.key) in s.rows && row.created && (!Locked(cfg) || row.skipPrimary)
    requires Blank(cfg.schema, s, RowId(t, row.key), i)
    ensures var st := PopulateOne(cfg, s, t, row, v, i);
            st.r.Ok? ==> HoldsNewProp(cfg.schema, s, st.s, t, row.key, v, i)
    decreases Nest(v), v, 1, 0
  {
    hide SetPropertyImpl, WellFormed;
    var prop := cfg.schema[t].props[i];
    var x := Source(v, prop);
    if cfg.schema[t].pk != Some(i) && !prop.kind.LinkingObjects? && x.Some? {
      SetHoldsNew(cfg, s, RowId(t, row.key), i, prop.kind, x.value, prop.name !in v.fields);
    }
  }

  /** Setting a property under ForceCreate, whatever the value. */
  lemma {:induction false} SetHoldsNew(cfg: Config, s: State, id: RowId, c: nat, kind: Kind, v: Value, isDefault: bool)
    requires Forced(cfg, s) && Writable(cfg, s, id, c, kind) && TargetsIn(kind, cfg.schema.Keys)
    requires isDefault ==> Get(s, id, c) == Initial(kind)
    ensures var st := SetPropertyImpl(cfg, s, id, c, kind, v, isDefault);
            st.r.Ok? ==> CellHoldsNew(cfg.schema, s, st.s, kind, id, c, v)
    decreases Nest(v), v, 6, 0
  {
    hide AssignList, Unbox, SlotHoldsNew;
    HasCell(cfg, s, id, c, kind);
    if kind.Many? {
      AssignListHoldsNew(cfg, s, id, c, kind.elem, v);
    } else if kind.One? && !(kind.nullable && v.Null?) {
      var u := Unbox(cfg, s, kind.elem, v, Get(s, id, c), false);
      UnboxAdds(cfg, s, kind.elem, v, Get(s, id, c), false);
      UnboxHoldsNew(cfg, s, kind.elem, v, Get(s, id, c), false);
      if u.r.Ok? {
        var s' := Assign(u.s, id, c, u.r.value);
        SlotHoldsNewStays(cfg.schema, s, s, u.s, s', id, kind.elem, u.r.value, v, false);
      }
    }
  }

  lemma {:induction false} UnboxHoldsNew(cfg: Config, s: State, elem: Elem, v: Value, current: Cell, inList: bool)
    requires Forced(cfg, s) && (elem.LinkElem? ==> elem.target in cfg.schema)
    ensures var u := Unbox(cfg, s, elem, v, current, inList);
            u.r.Ok? ==> SlotHoldsNew(cfg.schema, s, u.s, elem, u.r.value, v, inList)
    decreases Nest(v), v, 4, 0
  {
    hide Create, HoldsNew;
    if elem.LinkElem? && !v.Managed? {
      CreateHoldsNew(cfg, s, elem.target, v, Passed(cfg, current));
    }
  }

  lemma {:induction false} AssignListHoldsNew(cfg: Config, s: State, id: RowId, c: nat, elem: Elem, v: Value)
    requires Forced(cfg, s) && Writable(cfg, s, id, c, Many(elem))
    requires elem.LinkElem? ==> elem.target in cfg.schema
    ensures var st := AssignList(cfg, s, id, c, elem, v);
            st.r.Ok? ==> CellHoldsNew(cfg.schema, s, st.s, Many(elem), id, c, v)
    decreases Nest(v), v, 5, if v.Vec? then |v.elems| + 1 else 0
  {
    hide AssignFrom, SlotHoldsNew, WellFormed;
    ListCell(cfg, s, id, c, elem);
    ClearSafe(cfg, s, id, c, elem);
    if v.Vec? {
      var s1 := Prepared(cfg, s, id, c);
      AssignFromHoldsNew(cfg, s, s1, id, c, elem, v, 0);
    }
  }

  lemma {:induction false} AssignFromHoldsNew(cfg: Config, base: State, s: State, id: RowId, c: nat, elem: Elem,
                                              v: Value, i: nat)
    requires Forced(cfg, s) && Writable(cfg, s, id, c, Many(elem))
    requires elem.LinkElem? ==> elem.target in cfg.schema
    requires v.Vec? && i <= |v.elems| && |Items(s, id, c)| == i
    requires base.rows.Keys <= s.rows.Keys && id in base.rows
    requires ItemsHoldNew(cfg.schema, base, s, elem, Items(s, id, c), v, 0)
    ensures var st := AssignFrom(cfg, s, id, c, elem, v, i, 0);
            st.r.Ok? ==>
              && Get(st.s, id, c).List? && |Items(st.s, id, c)| == |v.elems|
              && ItemsHoldNew(cfg.schema, base, st.s, elem, Items(st.s, id, c), v, 0)
    decreases Nest(v), v, 5, |v.elems| - i
  {
    hide AssignOne, SlotHoldsNew, WellFormed;
    ListCell(cfg, s, id, c, elem);
    if i < |v.elems| {
      var a := AssignOne(cfg, s, id, c, elem, v, i, 0);
      AssignOneSafe(cfg, s, id, c, elem, v, i, 0);
      AssignOneHoldsNew(cfg, base, s, id, c, elem, v, i);
      if a.r.Ok? {
        AssignFromHoldsNew(cfg, base, a.s, id, c, elem, v, i + 1);
      }
    }
  }

  lemma {:induction false} AssignOneHoldsNew(cfg: Config, base: State, s: State, id: RowId, c: nat, elem: Elem,
                                             v: Value, i: nat)
    requires Forced(cfg, s) && Writable(cfg, s, id, c, Many(elem))
    requires elem.LinkElem? ==> elem.target in cfg.schema
    requires v.Vec? && i < |v.elems| && |Items(s, id, c)| == i
    requires base.rows.Keys <= s.rows.Keys && id in base.rows
    requires ItemsHoldNew(cfg.schema, base, s, elem, Items(s, id, c), v, 0)
    ensures var a := AssignOne(cfg, s, id, c, elem, v, i, 0);
            a.r.Ok? ==>
              && |Items(a.s, id, c)| == i + 1
              && ItemsHoldNew(cfg.schema, base, a.s, elem, Items(a.s, id, c), v, 0)
    decreases Nest(v), v, 4, 1
  {
    hide Unbox, SlotHoldsNew;
    ListCell(cfg, s, id, c, elem);
    var u := Unbox(cfg, s, elem, v.elems[i], NullCell, true);
    UnboxAdds(cfg, s, elem, v.elems[i], NullCell, true);
    UnboxHoldsNew(cfg, s, elem, v.elems[i], NullCell, true);
    if u.r.Ok? {
      var items := Items(s, id, c);
      var s' := Append(u.s, id, c, u.r.value);
      assert Items(s', id, c) == items + [u.r.value];
      ItemsHoldNewStay(cfg.schema, base, base, s, s', id, elem, items, v, 0);
      SlotHoldsNewStays(cfg.schema, base, s, u.s, s', id, elem, u.r.value, v.elems[i], true);
      ItemsHoldNewMore(cfg.schema, base, s', elem, items, u.r.value, v, 0);
    }
  }

  lemma {:induction false} ItemsHoldNewMore(sch: Schema, base: State, s: State, elem: Elem, items: seq<Cell>, x: Cell,
                                            v: Value, i: nat)
    requires v.Vec? && i <= |items| < |v.elems|
    requires ItemsHoldNew(sch, base, s, elem, items, v, i)
    requires SlotHoldsNew(sch, base, s, elem, x, v.elems[|items|], true)
    ensures ItemsHoldNew(sch, base, s, elem, items + [x], v, i)
    decreases |items| - i
  {
    hide SlotHoldsNew;
    if i < |items| {
      ItemsHoldNewMore(sch, base, s, elem, items, x, v, i + 1);
    } else {
      assert (items + [x])[i] == x;
    }
  }
}
