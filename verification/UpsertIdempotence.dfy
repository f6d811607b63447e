/** Updating with UpdateModified writes nothing exactly when the store holds the value already and the value sets no
    NaN. So a second identical update writes nothing exactly if there is no NaN.
 */
module UpsertIdempotence {
  import opened Store
  import opened Upsert
  import opened UpsertSafety
  import opened UpsertFrame
  import opened UpsertReadback

  // ---- Values without a NaN where it counts -----------------------------------------------------

  /** No supplied property of an object, its key aside, is set to a NaN, in it or below it. Fields that name no
      property, and values no property reads, do not count.
   */
  predicate NaNFree(sch: Schema, t: TypeName, v: Value)
    decreases Nest(v), v, 4, 0
  {
    v.Dict? && t in sch ==> NaNFreeFrom(sch, t, v, 0)
  }

  predicate NaNFreeFrom(sch: Schema, t: TypeName, v: Value, i: nat)
    requires v.Dict? && t in sch && i <= |sch[t].props|
    decreases Nest(v), v, 3, |sch[t].props| - i
  {
    i < |sch[t].props| ==> NaNFreeProp(sch, t, v, i) && NaNFreeFrom(sch, t, v, i + 1)
  }

  predicate NaNFreeProp(sch: Schema, t: TypeName, v: Value, i: nat)
    requires v.Dict? && t in sch && i < |sch[t].props|
    decreases Nest(v), v, 2, 0
  {
    var prop := sch[t].props[i];
    sch[t].pk == Some(i) || prop.name !in v.fields || NaNFreeValue(sch, prop.kind, v.fields[prop.name])
  }

  predicate NaNFreeValue(sch: Schema, kind: Kind, v: Value)
    decreases Nest(v), v, 6, 0
  {
    match kind
    case One(elem, _) => NaNFreeSlot(sch, elem, v)
    case Many(elem) => v.Vec? ==> NaNFreeElems(sch, elem, v, 0)
    case _ => true
  }

  predicate NaNFreeElems(sch: Schema, elem: Elem, v: Value, i: nat)
    requires v.Vec? && i <= |v.elems|
    decreases Nest(v), v, 5, |v.elems| - i
  {
    i < |v.elems| ==> NaNFreeSlot(sch, elem, v.elems[i]) && NaNFreeElems(sch, elem, v, i + 1)
  }

  predicate NaNFreeSlot(sch: Schema, elem: Elem, v: Value)
    decreases Nest(v), v, 5, 0
  {
    match elem
    case ScalarElem(_) => v.Prim? ==> !IsNaN(v.x)
    case LinkElem(target) => NaNFree(sch, target, v)
  }

  // ---- A held value without a NaN is not written ------------------------------------------------

  ghost predicate Quiet(cfg: Config, s: State) {
    Ready(cfg, s) && cfg.policy.UpdateModified?
  }

  lemma FindNamed(sch: Schema, s: State, t: TypeName, k: ObjKey, pk: Cell)
    requires WellFormed(sch, s) && Unique(sch, s) && HasKey(sch, t)
    requires RowId(t, k) in s.rows && NameOf(sch, s, RowId(t, k)) == Keyed(t, pk)
    ensures FindRow(sch, s, t, pk) == Some(k)
  {
    var r := FindRow(sch, s, t, pk);
    if r.Some? {
      assert NameOf(sch, s, RowId(t, r.value)) == NameOf(sch, s, RowId(t, k));
    }
  }

  lemma {:induction false} CreateQuiet(cfg: Config, base: State, s: State, t: TypeName, k: ObjKey, v: Value,
                                       current: Option<ObjKey>)
    requires Quiet(cfg, s) && NaNFree(cfg.schema, t, v) && t in cfg.schema
    requires Holds(cfg.schema, base, s, t, k, v)
    ensures Create(cfg, s, t, v, current) == Step(s, Ok(k))
    decreases Nest(v), v, 3, 0
  {
    assert NameOf(cfg.schema, s, RowId(t, k)) in OwnName(cfg.schema, t, v);
    FindNamed(cfg.schema, s, t, k, PrimaryCell(cfg.schema, t, v).value);
    PopulateQuiet(cfg, base, s, t, k, v, 0);
  }

  lemma {:induction false} PopulateQuiet(cfg: Config, base: State, s: State, t: TypeName, k: ObjKey, v: Value, i: nat)
    requires Quiet(cfg, s) && v.Dict?
    requires HasKey(cfg.schema, t) && i <= |cfg.schema[t].props| && RowId(t, k) in s.rows
    requires NaNFreeFrom(cfg.schema, t, v, i)
    requires HoldsFrom(cfg.schema, base, s, t, k, v, i)
    ensures Populate(cfg, s, t, Opened(k, false, true), v, i) == Step(s, Ok(()))
    decreases Nest(v), v, 2, |cfg.schema[t].props| - i
  {
    if i < |cfg.schema[t].props| {
      var prop := cfg.schema[t].props[i];
      if cfg.schema[t].pk != Some(i) && !prop.kind.LinkingObjects? && prop.name in v.fields {
        SetPropertyQuiet(cfg, base, s, RowId(t, k), i, prop.kind, v.fields[prop.name]);
      }
      PopulateQuiet(cfg, base, s, t, k, v, i + 1);
    }
  }

  lemma {:induction false} SetPropertyQuiet(cfg: Config, base: State, s: State, id: RowId, c: nat, kind: Kind, v: Value)
    requires Quiet(cfg, s) && Writable(cfg, s, id, c, kind) && TargetsIn(kind, cfg.schema.Keys)
    requires NaNFreeValue(cfg.schema, kind, v)
    requires CellHolds(cfg.schema, base, s, kind, id, c, v)
    ensures SetPropertyImpl(cfg, s, id, c, kind, v, false) == Step(s, Ok(()))
    ensures RejectsNull(kind) ==> !v.Null?
    decreases Nest(v), v, 6, 0
  {
    var x := Get(s, id, c);
    assert CellOk(s.rows.Keys, kind, x);
    if kind.One? && !(kind.nullable && v.Null?) {
      UnboxQuiet(cfg, base, s, kind.elem, x, v, x, false);
    } else if kind.Many? && v.Vec? {
      AssignQuiet(cfg, base, s, id, c, kind.elem, v, 0);
    }
  }

  lemma {:induction false} UnboxQuiet(cfg: Config, base: State, s: State, elem: Elem, x: Cell, v: Value, current: Cell,
                                      inList: bool)
    requires Quiet(cfg, s) && NaNFreeSlot(cfg.schema, elem, v)
    requires SlotOk(s.rows.Keys, elem, x) && (elem.LinkElem? ==> elem.target in cfg.schema)
    requires SlotHolds(cfg.schema, base, s, elem, x, v, inList)
    ensures Unbox(cfg, s, elem, v, current, inList) == Step(s, Ok(x))
    ensures !Differs(x, x)
    decreases Nest(v), v, 4, 0
  {
    if elem.LinkElem? && !v.Managed? {
      CreateQuiet(cfg, base, s, elem.target, x.key, v, Passed(cfg, current));
    }
  }

  lemma {:induction false} AssignQuiet(cfg: Config, base: State, s: State, id: RowId, c: nat, elem: Elem, v: Value,
                                       i: nat)
    requires Quiet(cfg, s) && Writable(cfg, s, id, c, Many(elem))
    requires elem.LinkElem? ==> elem.target in cfg.schema
    requires v.Vec? && i <= |v.elems| && NaNFreeElems(cfg.schema, elem, v, i)
    requires |Items(s, id, c)| == |v.elems|
    requires ItemsHold(cfg.schema, base, s, elem, Items(s, id, c), v, i)
    ensures AssignFrom(cfg, s, id, c, elem, v, i, |v.elems|) == Step(s, Ok(()))
    decreases Nest(v), v, 5, |v.elems| - i
  {
    if i < |v.elems| {
      var item := Items(s, id, c)[i];
      assert CellOk(s.rows.Keys, Many(elem), Get(s, id, c));
      assert item in Items(s, id, c) && v.elems[i] in v.elems;
      UnboxQuiet(cfg, base, s, elem, item, v.elems[i], item, true);
      AssignQuiet(cfg, base, s, id, c, elem, v, i + 1);
    }
  }

  // ---- A held value with a NaN is ---------------------------------------------------------------

  /** Something has been written. */
  ghost predicate Wrote(s: State, s': State) {
    |s.log| < |s'.log|
  }

  lemma WroteFirst(cfg: Config, s: State, s1: State, s2: State)
    requires Wrote(s, s1) && Safe(cfg, s1, s2)
    ensures Wrote(s, s2)
  {
  }

  lemma {:induction false} CreateLoud(cfg: Config, base: State, s: State, t: TypeName, k: ObjKey, v: Value,
                                      current: Option<ObjKey>)
    requires Quiet(cfg, s) && t in cfg.schema && !NaNFree(cfg.schema, t, v)
    requires Holds(cfg.schema, base, s, t, k, v)
    ensures Wrote(s, Create(cfg, s, t, v, current).s)
    decreases Nest(v), v, 3, 0
  {
    assert NameOf(cfg.schema, s, RowId(t, k)) in OwnName(cfg.schema, t, v);
    FindNamed(cfg.schema, s, t, k, PrimaryCell(cfg.schema, t, v).value);
    PopulateLoud(cfg, base, s, t, k, v, 0);
  }

  lemma {:induction false} PopulateLoud(cfg: Config, base: State, s: State, t: TypeName, k: ObjKey, v: Value, i: nat)
    requires Quiet(cfg, s) && v.Dict?
    requires HasKey(cfg.schema, t) && i <= |cfg.schema[t].props| && RowId(t, k) in s.rows
    requires !NaNFreeFrom(cfg.schema, t, v, i) && HoldsFrom(cfg.schema, base, s, t, k, v, i)
    ensures Wrote(s, Populate(cfg, s, t, Opened(k, false, true), v, i).s)
    decreases Nest(v), v, 2, |cfg.schema[t].props| - i
  {
    hide WellFormed, Unique;
    var row := Opened(k, false, true);
    var prop := cfg.schema[t].props[i];
    var p := PopulateOne(cfg, s, t, row, v, i);
    if NaNFreeProp(cfg.schema, t, v, i) {
      if cfg.schema[t].pk != Some(i) && !prop.kind.LinkingObjects? && prop.name in v.fields {
        SetPropertyQuiet(cfg, base, s, RowId(t, k), i, prop.kind, v.fields[prop.name]);
      }
      assert p == Step(s, Ok(()));
      PopulateLoud(cfg, base, s, t, k, v, i + 1);
    } else {
      SetPropertyLoud(cfg, base, s, RowId(t, k), i, prop.kind, v.fields[prop.name]);
      PopulateOneSafe(cfg, s, t, row, v, i);
      if p.r.Ok? {
        PopulateSafe(cfg, p.s, t, row, v, i + 1);
        WroteFirst(cfg, s, p.s, Populate(cfg, p.s, t, row, v, i + 1).s);
      }
    }
  }

  lemma {:induction false} SetPropertyLoud(cfg: Config, base: State, s: State, id: RowId, c: nat, kind: Kind, v: Value)
    requires Quiet(cfg, s) && Writable(cfg, s, id, c, kind) && TargetsIn(kind, cfg.schema.Keys)
    requires !NaNFreeValue(cfg.schema, kind, v) && CellHolds(cfg.schema, base, s, kind, id, c, v)
    ensures Wrote(s, SetPropertyImpl(cfg, s, id, c, kind, v, false).s)
    ensures RejectsNull(kind) ==> !v.Null?
    decreases Nest(v), v, 6, 0
  {
    hide AssignList, Create, Unique;
    assert CellOk(s.rows.Keys, kind, Get(s, id, c));
    if kind.One? {
      UnboxLoud(cfg, base, s, kind.elem, Get(s, id, c), v, Get(s, id, c), false);
    } else {
      AssignListLoud(cfg, base, s, id, c, kind.elem, v);
    }
  }

  /** A NaN differs from the slot that holds it; an object with a NaN in it is written itself. */
  lemma {:induction false} UnboxLoud(cfg: Config, base: State, s: State, elem: Elem, x: Cell, v: Value, current: Cell,
                                     inList: bool)
    requires Quiet(cfg, s) && !NaNFreeSlot(cfg.schema, elem, v) && (elem.LinkElem? ==> elem.target in cfg.schema)
    requires SlotHolds(cfg.schema, base, s, elem, x, v, inList)
    ensures elem.ScalarElem? ==> Differs(x, x)
    ensures elem.LinkElem? ==> Wrote(s, Unbox(cfg, s, elem, v, current, inList).s)
    decreases Nest(v), v, 4, 0
  {
    hide Create, WellFormed, Unique;
    if elem.LinkElem? {
      CreateLoud(cfg, base, s, elem.target, x.key, v, Passed(cfg, current));
    }
  }

  lemma {:induction false} AssignListLoud(cfg: Config, base: State, s: State, id: RowId, c: nat, elem: Elem, v: Value)
    requires Quiet(cfg, s) && Writable(cfg, s, id, c, Many(elem))
    requires elem.LinkElem? ==> elem.target in cfg.schema
    requires !NaNFreeValue(cfg.schema, Many(elem), v) && CellHolds(cfg.schema, base, s, Many(elem), id, c, v)
    ensures Wrote(s, AssignList(cfg, s, id, c, elem, v).s)
    decreases Nest(v), v, 5, |v.elems| + 1
  {
    hide AssignFrom, Trim, Unique, WellFormed;
    var sz := |Items(s, id, c)|;
    var l := AssignFrom(cfg, s, id, c, elem, v, 0, sz);
    AssignLoud(cfg, base, s, id, c, elem, v, 0);
    AssignFromSafe(cfg, s, id, c, elem, v, 0, sz);
    if l.r.Ok? {
      TrimSafe(cfg, l.s, id, c, elem, |v.elems|, sz);
      WroteFirst(cfg, s, l.s, Trim(l.s, id, c, |v.elems|, sz).s);
    }
  }

  lemma {:induction false} AssignLoud(cfg: Config, base: State, s: State, id: RowId, c: nat, elem: Elem, v: Value,
                                      i: nat)
    requires Quiet(cfg, s) && Writable(cfg, s, id, c, Many(elem))
    requires elem.LinkElem? ==> elem.target in cfg.schema
    requires v.Vec? && i <= |v.elems| && !NaNFreeElems(cfg.schema, elem, v, i)
    requires |Items(s, id, c)| == |v.elems| && ItemsHold(cfg.schema, base, s, elem, Items(s, id, c), v, i)
    ensures Wrote(s, AssignFrom(cfg, s, id, c, elem, v, i, |v.elems|).s)
    decreases Nest(v), v, 5, |v.elems| - i
  {
    hide AssignOne, WellFormed, Unique;
    var n := |v.elems|;
    var a := AssignOne(cfg, s, id, c, elem, v, i, n);
    assert v.elems[i] in v.elems;
    if NaNFreeSlot(cfg.schema, elem, v.elems[i]) {
      AssignOneQuiet(cfg, base, s, id, c, elem, v, i);
      AssignLoud(cfg, base, s, id, c, elem, v, i + 1);
    } else {
      AssignOneLoud(cfg, base, s, id, c, elem, v, i);
      AssignOneSafe(cfg, s, id, c, elem, v, i, n);
      if a.r.Ok? {
        AssignFromSafe(cfg, a.s, id, c, elem, v, i + 1, n);
        WroteFirst(cfg, s, a.s, AssignFrom(cfg, a.s, id, c, elem, v, i + 1, n).s);
      }
    }
  }

  lemma AssignOneQuiet(cfg: Config, base: State, s: State, id: RowId, c: nat, elem: Elem, v: Value, i: nat)
    requires Quiet(cfg, s) && Writable(cfg, s, id, c, Many(elem))
    requires elem.LinkElem? ==> elem.target in cfg.schema
    requires v.Vec? && i < |v.elems| && NaNFreeSlot(cfg.schema, elem, v.elems[i])
    requires |Items(s, id, c)| == |v.elems|
    requires SlotHolds(cfg.schema, base, s, elem, Items(s, id, c)[i], v.elems[i], true)
    ensures AssignOne(cfg, s, id, c, elem, v, i, |v.elems|) == Step(s, Ok(()))
  {
    hide Create;
    var item := Items(s, id, c)[i];
    assert CellOk(s.rows.Keys, Many(elem), Get(s, id, c));
    assert item in Items(s, id, c);
    UnboxQuiet(cfg, base, s, elem, item, v.elems[i], item, true);
  }

  lemma {:induction false} AssignOneLoud(cfg: Config, base: State, s: State, id: RowId, c: nat, elem: Elem, v: Value,
                                         i: nat)
    requires Quiet(cfg, s) && Writable(cfg, s, id, c, Many(elem))
    requires elem.LinkElem? ==> elem.target in cfg.schema
    requires v.Vec? && i < |v.elems| && !NaNFreeSlot(cfg.schema, elem, v.elems[i])
    requires |Items(s, id, c)| == |v.elems|
    requires SlotHolds(cfg.schema, base, s, elem, Items(s, id, c)[i], v.elems[i], true)
    ensures Wrote(s, AssignOne(cfg, s, id, c, elem, v, i, |v.elems|).s)
    decreases Nest(v), v, 4, 1
  {
    hide Create, Unique;
    var item := Items(s, id, c)[i];
    assert CellOk(s.rows.Keys, Many(elem), Get(s, id, c)) && item in Items(s, id, c);
    UnboxLoud(cfg, base, s, elem, item, v.elems[i], item, true);
    if elem.LinkElem? {
      var u := Unbox(cfg, s, elem, v.elems[i], item, true);
      PlaceWrites(s, u.s, id, c, item, if u.r.Ok? then u.r.value else item, i, |v.elems|);
    }
  }

  lemma PlaceWrites(s: State, s1: State, id: RowId, c: nat, before: Cell, x: Cell, i: nat, sz: nat)
    requires Wrote(s, s1)
    ensures Wrote(s, PlaceItem(s1, id, c, before, x, i, sz).s)
  {
  }

  // ---- Main results -----------------------------------------------------------------------------

  ghost predicate Held(sch: Schema, s: State, t: TypeName, v: Value) {
    exists k: ObjKey :: HeldBy(sch, s, t, v, k)
  }

  predicate HeldBy(sch: Schema, s: State, t: TypeName, v: Value, k: ObjKey) {
    Holds(sch, s, s, t, k, v)
  }

  /** UpdateModified succeeds without a write exactly when a row holds the value already and the value sets no NaN. */
  lemma QuietIffHeld(cfg: Config, s: State, t: TypeName, v: Value)
    requires Quiet(cfg, s) && HasKey(cfg.schema, t) && v.Dict? && Distinct(cfg.schema, t, v)
    ensures var st := Create(cfg, s, t, v, None);
            (st.r.Ok? && st.s.log == s.log) <==> (Held(cfg.schema, s, t, v) && NaNFree(cfg.schema, t, v))
  {
    var st := Create(cfg, s, t, v, None);
    if st.r.Ok? && st.s.log == s.log {
      CreateSafe(cfg, s, t, v, None);
      FrameRefl(cfg.schema, s, {});
      CreateHolds(cfg, s, {}, s, t, v, None);
      assert HeldBy(cfg.schema, s, t, v, st.r.value);
    }
    if Held(cfg.schema, s, t, v) {
      var k: ObjKey :| HeldBy(cfg.schema, s, t, v, k);
      if NaNFree(cfg.schema, t, v) {
        CreateQuiet(cfg, s, s, t, k, v, None);
      } else {
        CreateLoud(cfg, s, s, t, k, v, None);
      }
    }
  }

  /** After a successful create under any policy, an update with the same value leaves the whole state as it is,
      write log included, exactly if the value sets no NaN: a NaN is unequal to itself and written every time.
   */
  lemma SecondRunIsQuietIffNaNFree(first: Config, second: Config, s: State, t: TypeName, v: Value)
    requires first.schema == second.schema && second.policy.UpdateModified?
    requires Ready(first, s) && HasKey(first.schema, t) && v.Dict? && Distinct(first.schema, t, v)
    ensures var st := Create(first, s, t, v, None);
            st.r.Ok? ==> (Create(second, st.s, t, v, None) == st <==> NaNFree(first.schema, t, v))
  {
    var st := Create(first, s, t, v, None);
    if st.r.Ok? {
      CreateSafe(first, s, t, v, None);
      FrameRefl(first.schema, s, {});
      CreateHolds(first, s, {}, s, t, v, None);
      if NaNFree(first.schema, t, v) {
        CreateQuiet(second, s, st.s, t, st.r.value, v, None);
      } else {
        CreateLoud(second, s, st.s, t, st.r.value, v, None);
      }
    }
  }
}
