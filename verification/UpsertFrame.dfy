/** Which rows a value names, and that an upsert of it touches no others. */
module UpsertFrame {
  import opened Store
  import opened Upsert
  import opened UpsertSafety

  // ---- Names in a value tree --------------------------------------------------------------------

  /** A dictionary has a usable key: supplied, else the default, else null. */
  predicate HasUsableKey(sch: Schema, t: TypeName, v: Value)
    requires HasKey(sch, t)
  {
    var prop := sch[t].props[sch[t].pk.value];
    v.Dict? && UsableKey(prop.kind, Source(v, prop))
  }

  function KeyOf(sch: Schema, t: TypeName, v: Value): Cell
    requires HasKey(sch, t) && HasUsableKey(sch, t, v)
  {
    KeyCell(Source(v, sch[t].props[sch[t].pk.value]))
  }

  /** The (type, primary key) pair a dictionary stands for, as a set of at most one name. */
  function OwnName(sch: Schema, t: TypeName, v: Value): set<Name> {
    if HasKey(sch, t) && HasUsableKey(sch, t, v) then {Keyed(t, KeyOf(sch, t, v))} else {}
  }

  /** All pairs in the tree below v, v's own included. */
  function Names(sch: Schema, t: TypeName, v: Value): set<Name>
    decreases Nest(v), v, 4, 0
  {
    if v.Dict? && t in sch then OwnName(sch, t, v) + NamesFrom(sch, t, v, 0) else {}
  }

  function NamesFrom(sch: Schema, t: TypeName, v: Value, i: nat): set<Name>
    requires v.Dict? && t in sch && i <= |sch[t].props|
    decreases Nest(v), v, 3, |sch[t].props| - i
  {
    if i == |sch[t].props| then {} else PropNames(sch, t, v, i) + NamesFrom(sch, t, v, i + 1)
  }

  function PropNames(sch: Schema, t: TypeName, v: Value, i: nat): set<Name>
    requires v.Dict? && t in sch && i < |sch[t].props|
    decreases Nest(v), v, 2, 0
  {
    var prop := sch[t].props[i];
    var x := Source(v, prop);
    if sch[t].pk == Some(i) || x.None? then {} else ValueNames(sch, prop.kind, x.value)
  }

  function ValueNames(sch: Schema, kind: Kind, v: Value): set<Name>
    decreases Nest(v), v, 6, 0
  {
    match kind
    case One(LinkElem(target), _) => Names(sch, target, v)
    case Many(LinkElem(target)) => if v.Vec? then ElemNames(sch, target, v, 0) else {}
    case _ => {}
  }

  function ElemNames(sch: Schema, t: TypeName, v: Value, i: nat): set<Name>
    requires v.Vec? && i <= |v.elems|
    decreases Nest(v), v, 5, |v.elems| - i
  {
    if i == |v.elems| then {} else Names(sch, t, v.elems[i]) + ElemNames(sch, t, v, i + 1)
  }

  // ---- Trees of distinct keyed objects ----------------------------------------------------------

  /** Every type reached has a primary key and no (type, key) pair occurs twice. */
  predicate Distinct(sch: Schema, t: TypeName, v: Value)
    decreases Nest(v), v, 4, 0
  {
    v.Managed? ||
    (HasKey(sch, t) &&
     (v.Dict? ==> OwnName(sch, t, v) !! NamesFrom(sch, t, v, 0) && DistinctFrom(sch, t, v, 0)))
  }

  predicate DistinctFrom(sch: Schema, t: TypeName, v: Value, i: nat)
    requires v.Dict? && t in sch && i <= |sch[t].props|
    decreases Nest(v), v, 3, |sch[t].props| - i
  {
    i < |sch[t].props| ==>
      && DistinctProp(sch, t, v, i)
      && PropNames(sch, t, v, i) !! NamesFrom(sch, t, v, i + 1)
      && DistinctFrom(sch, t, v, i + 1)
  }

  predicate DistinctProp(sch: Schema, t: TypeName, v: Value, i: nat)
    requires v.Dict? && t in sch && i < |sch[t].props|
    decreases Nest(v), v, 2, 0
  {
    var prop := sch[t].props[i];
    var x := Source(v, prop);
    sch[t].pk == Some(i) || x.None? || DistinctValue(sch, prop.kind, x.value)
  }

  predicate DistinctValue(sch: Schema, kind: Kind, v: Value)
    decreases Nest(v), v, 6, 0
  {
    match kind
    case One(LinkElem(target), nullable) => (nullable && v.Null?) || Distinct(sch, target, v)
    case Many(LinkElem(target)) => v.Vec? ==> DistinctElems(sch, target, v, 0)
    case _ => true
  }

  predicate DistinctElems(sch: Schema, t: TypeName, v: Value, i: nat)
    requires v.Vec? && i <= |v.elems|
    decreases Nest(v), v, 5, |v.elems| - i
  {
    i < |v.elems| ==>
      && Distinct(sch, t, v.elems[i])
      && Names(sch, t, v.elems[i]) !! ElemNames(sch, t, v, i + 1)
      && DistinctElems(sch, t, v, i + 1)
  }

  // ---- The frame --------------------------------------------------------------------------------

  /** Only rows named in m have changed or appeared, and every row has kept its name. */
  ghost predicate Frame(sch: Schema, s: State, s': State, m: set<Name>) {
    && NamesKept(sch, s, s')
    && (forall id | id in s.rows :: id in s'.rows)
    && (forall id | id in s.rows && NameOf(sch, s, id) !in m :: s'.rows[id] == s.rows[id])
    && (forall id | id in s'.rows && id !in s.rows :: NameOf(sch, s', id) in m)
  }

  lemma FrameTrans(sch: Schema, s: State, s1: State, s2: State, m1: set<Name>, m2: set<Name>)
    requires Frame(sch, s, s1, m1) && Frame(sch, s1, s2, m2)
    ensures Frame(sch, s, s2, m1 + m2)
  {
    forall id | id in s.rows
      ensures NameOf(sch, s2, id) == NameOf(sch, s, id)
    {
      assert id in s1.rows;
    }
    forall id | id in s.rows && NameOf(sch, s, id) !in m1 + m2
      ensures s2.rows[id] == s.rows[id]
    {
      assert s1.rows[id] == s.rows[id];
    }
    forall id | id in s2.rows && id !in s.rows
      ensures NameOf(sch, s2, id) in m1 + m2
    {
      if id in s1.rows {
        assert NameOf(sch, s2, id) == NameOf(sch, s1, id);
      }
    }
  }

  lemma FrameMono(sch: Schema, s: State, s': State, m: set<Name>, m': set<Name>)
    requires Frame(sch, s, s', m) && m <= m'
    ensures Frame(sch, s, s', m')
  {
  }

  lemma FrameRefl(sch: Schema, s: State, m: set<Name>)
    ensures Frame(sch, s, s, m)
  {
  }

  /** The other cells of a row are unchanged. */
  ghost predicate OthersKept(s: State, s': State, id: RowId, c: nat) {
    forall c': nat | c' != c :: Get(s', id, c') == Get(s, id, c')
  }

  /** Cell c of row id and the rows named in m have been written, and nothing else. */
  ghost predicate Touches(sch: Schema, s: State, s': State, id: RowId, c: nat, m: set<Name>) {
    && Frame(sch, s, s', {NameOf(sch, s, id)} + m)
    && OthersKept(s, s', id, c)
  }

  lemma TouchesTrans(sch: Schema, s: State, s1: State, s2: State, id: RowId, c: nat, m1: set<Name>, m2: set<Name>)
    requires id in s.rows && Touches(sch, s, s1, id, c, m1) && Touches(sch, s1, s2, id, c, m2)
    ensures Touches(sch, s, s2, id, c, m1 + m2)
  {
    var own := {NameOf(sch, s, id)};
    FrameTrans(sch, s, s1, s2, own + m1, own + m2);
    assert own + (m1 + m2) == (own + m1) + (own + m2);
    forall c': nat | c' != c
      ensures Get(s2, id, c') == Get(s, id, c')
    {
      assert Get(s1, id, c') == Get(s, id, c');
    }
  }

  lemma TouchesMono(sch: Schema, s: State, s': State, id: RowId, c: nat, m: set<Name>, m': set<Name>)
    requires Touches(sch, s, s', id, c, m) && m <= m'
    ensures Touches(sch, s, s', id, c, m')
  {
    FrameMono(sch, s, s', {NameOf(sch, s, id)} + m, {NameOf(sch, s, id)} + m');
  }

  lemma TouchesRefl(sch: Schema, s: State, id: RowId, c: nat, m: set<Name>)
    ensures Touches(sch, s, s, id, c, m)
  {
    FrameRefl(sch, s, {NameOf(sch, s, id)} + m);
  }

  /** Nested writes that leave row id alone touch none of its cells. */
  lemma TouchesOther(sch: Schema, s: State, s': State, id: RowId, c: nat, m: set<Name>)
    requires Frame(sch, s, s', m) && id in s.rows && NameOf(sch, s, id) !in m
    ensures Touches(sch, s, s', id, c, m)
  {
    RowKept(sch, s, s', m, id);
    FrameMono(sch, s, s', m, {NameOf(sch, s, id)} + m);
  }

  /** Cells below i, and the key cell, are unchanged. */
  ghost predicate BelowKept(s: State, s': State, id: RowId, i: nat) {
    forall c: nat | c < i :: Get(s', id, c) == Get(s, id, c)
  }

  lemma PutFrame(cfg: Config, s: State, id: RowId, c: nat, kind: Kind, x: Cell, w: Write)
    requires WellFormed(cfg.schema, s) && Writable(cfg, s, id, c, kind) && Locked(cfg)
    ensures Frame(cfg.schema, s, Put(s, id, c, x, w), {NameOf(cfg.schema, s, id)})
    ensures Touches(cfg.schema, s, Put(s, id, c, x, w), id, c, {})
  {
    assert {NameOf(cfg.schema, s, id)} + {} == {NameOf(cfg.schema, s, id)};
  }

  /** A step that leaves a row's name out of its frame keeps the whole row. */
  lemma RowKept(sch: Schema, s: State, s': State, m: set<Name>, id: RowId)
    requires Frame(sch, s, s', m) && id in s.rows && NameOf(sch, s, id) !in m
    ensures forall c: nat :: Get(s', id, c) == Get(s, id, c)
    ensures NameOf(sch, s', id) == NameOf(sch, s, id)
  {
  }

  /** Nested writes that leave row id alone, followed by a write to one of its cells. */
  lemma ThenPut(cfg: Config, s: State, s1: State, id: RowId, c: nat, kind: Kind, x: Cell, w: Write, m: set<Name>)
    requires Frame(cfg.schema, s, s1, m) && id in s.rows && NameOf(cfg.schema, s, id) !in m
    requires WellFormed(cfg.schema, s1) && Writable(cfg, s1, id, c, kind) && Locked(cfg)
    ensures Touches(cfg.schema, s, Put(s1, id, c, x, w), id, c, m)
  {
    TouchesOther(cfg.schema, s, s1, id, c, m);
    PutFrame(cfg, s1, id, c, kind, x, w);
    TouchesTrans(cfg.schema, s, s1, Put(s1, id, c, x, w), id, c, m, {});
    assert m + {} == m;
  }

  /** What holds before the steps of an upsert: a well-formed store with unique keys that are
      locked. */
  ghost predicate Ready(cfg: Config, s: State) {
    Locked(cfg) && WellFormed(cfg.schema, s) && Unique(cfg.schema, s)
  }

  lemma {:induction false} TrimFrame(cfg: Config, s: State, id: RowId, c: nat, elem: Elem, index: nat, sz: nat)
    requires Ready(cfg, s) && Writable(cfg, s, id, c, Many(elem))
    ensures Touches(cfg.schema, s, Trim(s, id, c, index, sz).s, id, c, {})
    decreases sz
  {
    hide WellFormed, Unique, Touches;
    if index < sz <= |Items(s, id, c)| {
      var s1 := RemoveSlot(s, id, c, sz - 1);
      RemoveSlotSafe(cfg, s, id, c, elem, sz - 1);
      PutFrame(cfg, s, id, c, Many(elem), Get(s1, id, c), Removed(Loc(id, c), sz - 1));
      assert s1 == Put(s, id, c, Get(s1, id, c), Removed(Loc(id, c), sz - 1));
      TrimFrame(cfg, s1, id, c, elem, index, sz - 1);
      TouchesTrans(cfg.schema, s, s1, Trim(s1, id, c, index, sz - 1).s, id, c, {}, {});
      var none: set<Name> := {};
      assert none + none == none;
    } else {
      TouchesRefl(cfg.schema, s, id, c, {});
    }
  }

  lemma OpenFrame(cfg: Config, s: State, t: TypeName, v: Value, current: Option<ObjKey>)
    requires Ready(cfg, s) && HasKey(cfg.schema, t) && v.Dict?
    ensures var o := Open(cfg, s, t, v, current);
            && Frame(cfg.schema, s, o.s, OwnName(cfg.schema, t, v))
            && (o.r.Ok? ==> OwnName(cfg.schema, t, v) == {NameOf(cfg.schema, o.s, RowId(t, o.r.value.key))})
            && (o.r.Ok? && !o.r.value.created ==> o.s == s)
  {
    hide Unique;
    OpenSafe(cfg, s, t, v, current);
  }

  lemma {:induction false} CreateFrame(cfg: Config, s: State, t: TypeName, v: Value, current: Option<ObjKey>)
    requires Ready(cfg, s) && HasKey(cfg.schema, t) && Distinct(cfg.schema, t, v) && !v.Managed?
    ensures var st := Create(cfg, s, t, v, current);
            && Frame(cfg.schema, s, st.s, Names(cfg.schema, t, v))
    decreases Nest(v), v, 3, 0
  {
    hide Populate, WellFormed, Unique;
    if v.Dict? {
      OpenSafe(cfg, s, t, v, current);
      OpenFrame(cfg, s, t, v, current);
      var o := Open(cfg, s, t, v, current);
      var own := OwnName(cfg.schema, t, v);
      if o.r.Ok? {
        PopulateFrame(cfg, o.s, t, o.r.value, v, 0);
        FrameTrans(cfg.schema, s, o.s, Populate(cfg, o.s, t, o.r.value, v, 0).s, own,
                   own + NamesFrom(cfg.schema, t, v, 0));
        assert own + (own + NamesFrom(cfg.schema, t, v, 0)) == Names(cfg.schema, t, v);
      } else {
        FrameMono(cfg.schema, s, o.s, own, Names(cfg.schema, t, v));
      }
    }
  }

  lemma {:induction false} PopulateFrame(cfg: Config, s: State, t: TypeName, row: Opened, v: Value, i: nat)
    requires Ready(cfg, s) && t in cfg.schema && i <= |cfg.schema[t].props| && v.Dict?
    requires RowId(t, row.key) in s.rows && row.skipPrimary
    requires DistinctFrom(cfg.schema, t, v, i)
    requires NameOf(cfg.schema, s, RowId(t, row.key)) !in NamesFrom(cfg.schema, t, v, i)
    ensures var s' := Populate(cfg, s, t, row, v, i).s;
            && Frame(cfg.schema, s, s', {NameOf(cfg.schema, s, RowId(t, row.key))} + NamesFrom(cfg.schema, t, v, i))
            && BelowKept(s, s', RowId(t, row.key), i)
    decreases Nest(v), v, 2, |cfg.schema[t].props| - i
  {
    hide PopulateOne, WellFormed, Unique, DistinctProp;
    if i < |cfg.schema[t].props| {
      PopulateOneSafe(cfg, s, t, row, v, i);
      PopulateOneFrame(cfg, s, t, row, v, i);
      var p := PopulateOne(cfg, s, t, row, v, i);
      var own := {NameOf(cfg.schema, s, RowId(t, row.key))};
      var m1 := own + PropNames(cfg.schema, t, v, i);
      var m2 := own + NamesFrom(cfg.schema, t, v, i + 1);
      if p.r.Ok? {
        PopulateFrame(cfg, p.s, t, row, v, i + 1);
        FrameTrans(cfg.schema, s, p.s, Populate(cfg, p.s, t, row, v, i + 1).s, m1, m2);
        assert m1 + m2 == own + NamesFrom(cfg.schema, t, v, i);
      } else {
        FrameMono(cfg.schema, s, p.s, m1, own + NamesFrom(cfg.schema, t, v, i));
      }
    } else {
      FrameRefl(cfg.schema, s, {NameOf(cfg.schema, s, RowId(t, row.key))});
    }
  }

  lemma {:induction false} PopulateOneFrame(cfg: Config, s: State, t: TypeName, row: Opened, v: Value, i: nat)
    requires Ready(cfg, s) && t in cfg.schema && i < |cfg.schema[t].props| && v.Dict?
    requires RowId(t, row.key) in s.rows && row.skipPrimary
    requires DistinctProp(cfg.schema, t, v, i)
    requires NameOf(cfg.schema, s, RowId(t, row.key)) !in PropNames(cfg.schema, t, v, i)
    ensures Touches(cfg.schema, s, PopulateOne(cfg, s, t, row, v, i).s, RowId(t, row.key), i,
                    PropNames(cfg.schema, t, v, i))
    decreases Nest(v), v, 1, 0
  {
    hide SetPropertyImpl;
    var prop := cfg.schema[t].props[i];
    var id := RowId(t, row.key);
    if cfg.schema[t].pk == Some(i) {
      TouchesRefl(cfg.schema, s, id, i, {});
    } else if prop.name in v.fields {
      SetPropertyFrame(cfg, s, id, i, prop.kind, v.fields[prop.name], false);
    } else if prop.default.Some? {
      SetPropertyFrame(cfg, s, id, i, prop.kind, prop.default.value, true);
    }
  }

  lemma {:induction false} SetPropertyFrame(cfg: Config, s: State, id: RowId, c: nat, kind: Kind, v: Value,
                                            isDefault: bool)
    requires Ready(cfg, s) && Writable(cfg, s, id, c, kind) && TargetsIn(kind, cfg.schema.Keys)
    requires DistinctValue(cfg.schema, kind, v)
    requires NameOf(cfg.schema, s, id) !in ValueNames(cfg.schema, kind, v)
    ensures Touches(cfg.schema, s, SetPropertyImpl(cfg, s, id, c, kind, v, isDefault).s, id, c,
                    ValueNames(cfg.schema, kind, v))
    decreases Nest(v), v, 6, 0
  {
    hide AssignList, Unbox, WellFormed, Unique;
    var names := ValueNames(cfg.schema, kind, v);
    TouchesRefl(cfg.schema, s, id, c, names);
    if IsNullable(kind) && v.Null? {
      PutFrame(cfg, s, id, c, kind, NullCell, Assigned(Loc(id, c), Get(s, id, c), NullCell));
      TouchesMono(cfg.schema, s, Assign(s, id, c, NullCell), id, c, {}, names);
    } else if kind.Many? {
      AssignListFrame(cfg, s, id, c, kind.elem, v);
    } else if kind.One? {
      var u := Unbox(cfg, s, kind.elem, v, Get(s, id, c), false);
      UnboxSafe(cfg, s, kind.elem, v, Get(s, id, c), false);
      UnboxFrame(cfg, s, kind.elem, v, Get(s, id, c), false);
      TouchesOther(cfg.schema, s, u.s, id, c, names);
      if u.r.Ok? {
        ThenPut(cfg, s, u.s, id, c, kind, u.r.value, Assigned(Loc(id, c), Get(u.s, id, c), u.r.value), names);
      }
    }
  }

  function SlotNames(sch: Schema, elem: Elem, v: Value): set<Name> {
    if elem.LinkElem? then Names(sch, elem.target, v) else {}
  }

  predicate DistinctSlot(sch: Schema, elem: Elem, v: Value) {
    elem.LinkElem? ==> Distinct(sch, elem.target, v)
  }

  lemma {:induction false} UnboxFrame(cfg: Config, s: State, elem: Elem, v: Value, current: Cell, inList: bool)
    requires Ready(cfg, s) && (elem.LinkElem? ==> elem.target in cfg.schema)
    requires DistinctSlot(cfg.schema, elem, v)
    ensures Frame(cfg.schema, s, Unbox(cfg, s, elem, v, current, inList).s, SlotNames(cfg.schema, elem, v))
    decreases Nest(v), v, 4, 0
  {
    hide Create;
    if elem.LinkElem? && !v.Managed? {
      CreateFrame(cfg, s, elem.target, v, Passed(cfg, current));
    } else {
      FrameRefl(cfg.schema, s, SlotNames(cfg.schema, elem, v));
    }
  }

  /** Names of the elements from index i on, whatever the element type. */
  function RestNames(sch: Schema, elem: Elem, v: Value, i: nat): set<Name>
    requires v.Vec? && i <= |v.elems|
  {
    if elem.LinkElem? then ElemNames(sch, elem.target, v, i) else {}
  }

  predicate DistinctRest(sch: Schema, elem: Elem, v: Value, i: nat)
    requires v.Vec? && i <= |v.elems|
  {
    elem.LinkElem? ==> DistinctElems(sch, elem.target, v, i)
  }

  lemma {:induction false} AssignListFrame(cfg: Config, s: State, id: RowId, c: nat, elem: Elem, v: Value)
    requires Ready(cfg, s) && Writable(cfg, s, id, c, Many(elem))
    requires elem.LinkElem? ==> elem.target in cfg.schema
    requires DistinctValue(cfg.schema, Many(elem), v)
    requires NameOf(cfg.schema, s, id) !in ValueNames(cfg.schema, Many(elem), v)
    ensures Touches(cfg.schema, s, AssignList(cfg, s, id, c, elem, v).s, id, c, ValueNames(cfg.schema, Many(elem), v))
    decreases Nest(v), v, 5, if v.Vec? then |v.elems| + 1 else 0
  {
    hide AssignFrom, Trim, WellFormed, Unique, Names;
    var names := ValueNames(cfg.schema, Many(elem), v);
    PreparedFrame(cfg, s, id, c, elem);
    var s1 := Prepared(cfg, s, id, c);
    if v.Vec? {
      var sz := Reusable(cfg, s, id, c);
      var l := AssignFrom(cfg, s1, id, c, elem, v, 0, sz);
      AssignFromSafe(cfg, s1, id, c, elem, v, 0, sz);
      AssignFromFrame(cfg, s1, id, c, elem, v, 0, sz);
      TouchesTrans(cfg.schema, s, s1, l.s, id, c, {}, names);
      assert {} + names == names;
      if l.r.Ok? {
        TrimFrame(cfg, l.s, id, c, elem, |v.elems|, sz);
        TouchesTrans(cfg.schema, s, l.s, Trim(l.s, id, c, |v.elems|, sz).s, id, c, names, {});
        assert names + {} == names;
      }
    } else {
      ClearFrame(cfg, s, id, c, elem);
      TouchesRefl(cfg.schema, s, id, c, names);
      TouchesMono(cfg.schema, s, s1, id, c, {}, names);
      TouchesMono(cfg.schema, s, Clear(s, id, c), id, c, {}, names);
    }
  }

  /** The element loop starts with as many items as it may overwrite, and nothing else has changed. */
  lemma PreparedFrame(cfg: Config, s: State, id: RowId, c: nat, elem: Elem)
    requires Ready(cfg, s) && Writable(cfg, s, id, c, Many(elem))
    ensures var s' := Prepared(cfg, s, id, c);
            && Ready(cfg, s') && Writable(cfg, s', id, c, Many(elem))
            && NameOf(cfg.schema, s', id) == NameOf(cfg.schema, s, id)
            && Touches(cfg.schema, s, s', id, c, {})
            && s'.rows.Keys == s.rows.Keys && s'.next == s.next
            && |Items(s', id, c)| == Reusable(cfg, s, id, c)
  {
    ClearFrame(cfg, s, id, c, elem);
    TouchesRefl(cfg.schema, s, id, c, {});
  }

  lemma ClearFrame(cfg: Config, s: State, id: RowId, c: nat, elem: Elem)
    requires Ready(cfg, s) && Writable(cfg, s, id, c, Many(elem))
    ensures var s' := Clear(s, id, c);
            && Ready(cfg, s') && Writable(cfg, s', id, c, Many(elem))
            && NameOf(cfg.schema, s', id) == NameOf(cfg.schema, s, id)
            && Touches(cfg.schema, s, s', id, c, {})
            && s'.rows.Keys == s.rows.Keys && s'.next == s.next
            && Items(s', id, c) == []
            && Get(s', id, c) == List([])
  {
    ClearSafe(cfg, s, id, c, elem);
    TouchesRefl(cfg.schema, s, id, c, {});
    PutFrame(cfg, s, id, c, Many(elem), List([]), Cleared(Loc(id, c)));
    assert CellOk(s.rows.Keys, Many(elem), Get(s, id, c));
  }

  lemma {:induction false} AssignFromFrame(cfg: Config, s: State, id: RowId, c: nat, elem: Elem, v: Value,
                                           i: nat, sz: nat)
    requires Ready(cfg, s) && Writable(cfg, s, id, c, Many(elem))
    requires elem.LinkElem? ==> elem.target in cfg.schema
    requires v.Vec? && i <= |v.elems|
    requires DistinctRest(cfg.schema, elem, v, i)
    requires NameOf(cfg.schema, s, id) !in RestNames(cfg.schema, elem, v, i)
    ensures Touches(cfg.schema, s, AssignFrom(cfg, s, id, c, elem, v, i, sz).s, id, c,
                    RestNames(cfg.schema, elem, v, i))
    decreases Nest(v), v, 5, |v.elems| - i
  {
    hide AssignOne, WellFormed, Unique;
    if i < |v.elems| {
      var a := AssignOne(cfg, s, id, c, elem, v, i, sz);
      AssignOneSafe(cfg, s, id, c, elem, v, i, sz);
      AssignOneFrame(cfg, s, id, c, elem, v, i, sz);
      var m1, m2 := SlotNames(cfg.schema, elem, v.elems[i]), RestNames(cfg.schema, elem, v, i + 1);
      assert m1 + m2 == RestNames(cfg.schema, elem, v, i);
      if a.r.Ok? {
        AssignFromFrame(cfg, a.s, id, c, elem, v, i + 1, sz);
        TouchesTrans(cfg.schema, s, a.s, AssignFrom(cfg, a.s, id, c, elem, v, i + 1, sz).s, id, c, m1, m2);
      } else {
        TouchesMono(cfg.schema, s, a.s, id, c, m1, m1 + m2);
      }
    } else {
      TouchesRefl(cfg.schema, s, id, c, RestNames(cfg.schema, elem, v, i));
    }
  }

  lemma {:induction false} AssignOneFrame(cfg: Config, s: State, id: RowId, c: nat, elem: Elem, v: Value,
                                          i: nat, sz: nat)
    requires Ready(cfg, s) && Writable(cfg, s, id, c, Many(elem))
    requires elem.LinkElem? ==> elem.target in cfg.schema
    requires v.Vec? && i < |v.elems|
    requires DistinctSlot(cfg.schema, elem, v.elems[i])
    requires NameOf(cfg.schema, s, id) !in SlotNames(cfg.schema, elem, v.elems[i])
    ensures Touches(cfg.schema, s, AssignOne(cfg, s, id, c, elem, v, i, sz).s, id, c,
                    SlotNames(cfg.schema, elem, v.elems[i]))
    decreases Nest(v), v, 4, 1
  {
    hide Unbox, PlaceItem, WellFormed, Unique;
    var names := SlotNames(cfg.schema, elem, v.elems[i]);
    if i < sz && i >= |Items(s, id, c)| {
      TouchesRefl(cfg.schema, s, id, c, names);
    } else {
      var current := if i < sz then Items(s, id, c)[i] else NullCell;
      var u := Unbox(cfg, s, elem, v.elems[i], current, true);
      UnboxSafe(cfg, s, elem, v.elems[i], current, true);
      UnboxFrame(cfg, s, elem, v.elems[i], current, true);
      TouchesOther(cfg.schema, s, u.s, id, c, names);
      if u.r.Ok? {
        PlaceItemFrame(cfg, s, u.s, id, c, elem, current, u.r.value, i, sz, names);
      }
    }
  }

  lemma PlaceItemFrame(cfg: Config, s: State, s1: State, id: RowId, c: nat, elem: Elem, before: Cell, x: Cell,
                       i: nat, sz: nat, m: set<Name>)
    requires Frame(cfg.schema, s, s1, m) && id in s.rows && NameOf(cfg.schema, s, id) !in m
    requires WellFormed(cfg.schema, s1) && Writable(cfg, s1, id, c, Many(elem)) && Locked(cfg)
    ensures Touches(cfg.schema, s, PlaceItem(s1, id, c, before, x, i, sz).s, id, c, m)
  {
    var s' := PlaceItem(s1, id, c, before, x, i, sz).s;
    TouchesOther(cfg.schema, s, s1, id, c, m);
    if i >= sz {
      ThenPut(cfg, s, s1, id, c, Many(elem), Get(s', id, c), Appended(Loc(id, c), x), m);
    } else if Differs(before, x) && i < |Items(s1, id, c)| {
      ThenPut(cfg, s, s1, id, c, Many(elem), Get(s', id, c),
              SlotAssigned(Loc(id, c), i, Items(s1, id, c)[i], x), m);
    }
  }
}
