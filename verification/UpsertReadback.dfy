/** A successful upsert can be read back: what the store holds afterwards, stated without reference to how
    it got there.
 */
module UpsertReadback {
  import opened Store
  import opened Upsert
  import opened UpsertSafety
  import opened UpsertFrame

  // ---- What it means for a store to hold a value ------------------------------------------------

  /** Row k of type t in s holds v, for a call that started from the store base: it has v's primary key,
      its supplied properties read back, and the others are as in base, or defaulted if the row is new. */
  predicate Holds(sch: Schema, base: State, s: State, t: TypeName, k: ObjKey, v: Value)
    decreases Nest(v), v, 4, 0
  {
    && v.Dict?
    && HasKey(sch, t)
    && RowId(t, k) in s.rows
    && OwnName(sch, t, v) == {NameOf(sch, s, RowId(t, k))}
    && HoldsFrom(sch, base, s, t, k, v, 0)
  }

  predicate HoldsFrom(sch: Schema, base: State, s: State, t: TypeName, k: ObjKey, v: Value, i: nat)
    requires v.Dict? && t in sch && i <= |sch[t].props|
    decreases Nest(v), v, 3, |sch[t].props| - i
  {
    i < |sch[t].props| ==> HoldsProp(sch, base, s, t, k, v, i) && HoldsFrom(sch, base, s, t, k, v, i + 1)
  }

  predicate HoldsProp(sch: Schema, base: State, s: State, t: TypeName, k: ObjKey, v: Value, i: nat)
    requires v.Dict? && t in sch && i < |sch[t].props|
    decreases Nest(v), v, 2, 0
  {
    var id := RowId(t, k);
    var prop := sch[t].props[i];
    sch[t].pk == Some(i) || prop.kind.LinkingObjects? ||
    match Lookup(v, prop.name)
    case Some(x) => CellHolds(sch, base, s, prop.kind, id, i, x)
    case None =>
      if id in base.rows then Get(s, id, i) == Get(base, id, i)
      else
        match prop.default
        case Some(d) => CellHolds(sch, base, s, prop.kind, id, i, d)
        case None => Get(s, id, i) == Initial(prop.kind) && (RejectsNull(prop.kind) ==> v.allowMissing)
  }

  predicate CellHolds(sch: Schema, base: State, s: State, kind: Kind, id: RowId, c: nat, v: Value)
    decreases Nest(v), v, 6, 0
  {
    var x := Get(s, id, c);
    match kind
    case LinkingObjects(_, _) => false
    case One(elem, nullable) =>
      if nullable && v.Null? then x.NullCell? else SlotHolds(sch, base, s, elem, x, v, false)
    case Many(elem) =>
      || v == ListOf(Loc(id, c))
      || (x.List? && v.Null? && x.items == [])
      || (x.List? && v.Vec? && |x.items| == |v.elems| && ItemsHold(sch, base, s, elem, x.items, v, 0))
  }

  predicate ItemsHold(sch: Schema, base: State, s: State, elem: Elem, items: seq<Cell>, v: Value, i: nat)
    requires v.Vec? && |items| == |v.elems| && i <= |items|
    decreases Nest(v), v, 5, |v.elems| - i
  {
    i < |items| ==>
      && SlotHolds(sch, base, s, elem, items[i], v.elems[i], true)
      && ItemsHold(sch, base, s, elem, items, v, i + 1)
  }

  predicate SlotHolds(sch: Schema, base: State, s: State, elem: Elem, x: Cell, v: Value, inList: bool)
    decreases Nest(v), v, 5, 0
  {
    match elem
    case ScalarElem(base_) => v.Prim? && x == Val(v.x)
    case LinkElem(target) =>
      if v.Managed? then x == Link(v.id.key) && (inList ==> v.id.t == target)
      else x.Link? && Holds(sch, base, s, target, x.key, v)
  }

  // ---- Later writes to other rows do not matter -------------------------------------------------

  lemma {:induction false} HoldsStable(sch: Schema, base: State, s: State, s': State, m: set<Name>,
                                       t: TypeName, k: ObjKey, v: Value)
    requires Frame(sch, s, s', m) && t in sch && v.Dict? && m !! Names(sch, t, v)
    requires Holds(sch, base, s, t, k, v)
    ensures Holds(sch, base, s', t, k, v)
    decreases Nest(v), v, 4, 0
  {
    RowKept(sch, s, s', m, RowId(t, k));
    HoldsFromStable(sch, base, s, s', m, t, k, v, 0);
  }

  lemma {:induction false} HoldsFromStable(sch: Schema, base: State, s: State, s': State, m: set<Name>,
                                           t: TypeName, k: ObjKey, v: Value, i: nat)
    requires Frame(sch, s, s', m) && t in sch && v.Dict? && i <= |sch[t].props|
    requires m !! NamesFrom(sch, t, v, i)
    requires forall c: nat :: Get(s', RowId(t, k), c) == Get(s, RowId(t, k), c)
    requires HoldsFrom(sch, base, s, t, k, v, i)
    ensures HoldsFrom(sch, base, s', t, k, v, i)
    decreases Nest(v), v, 3, |sch[t].props| - i
  {
    if i < |sch[t].props| {
      HoldsPropStable(sch, base, s, s', m, t, k, v, i);
      HoldsFromStable(sch, base, s, s', m, t, k, v, i + 1);
    }
  }

  lemma {:induction false} HoldsPropStable(sch: Schema, base: State, s: State, s': State, m: set<Name>,
                                           t: TypeName, k: ObjKey, v: Value, i: nat)
    requires Frame(sch, s, s', m) && t in sch && v.Dict? && i < |sch[t].props|
    requires m !! PropNames(sch, t, v, i)
    requires Get(s', RowId(t, k), i) == Get(s, RowId(t, k), i)
    requires HoldsProp(sch, base, s, t, k, v, i)
    ensures HoldsProp(sch, base, s', t, k, v, i)
    decreases Nest(v), v, 2, 0
  {
    var prop := sch[t].props[i];
    var x := Source(v, prop);
    if sch[t].pk != Some(i) && !prop.kind.LinkingObjects? && x.Some?
       && (prop.name in v.fields || RowId(t, k) !in base.rows) {
      CellHoldsStable(sch, base, s, s', m, prop.kind, RowId(t, k), i, x.value);
    }
  }

  lemma {:induction false} CellHoldsStable(sch: Schema, base: State, s: State, s': State, m: set<Name>,
                                           kind: Kind, id: RowId, c: nat, v: Value)
    requires Frame(sch, s, s', m) && m !! ValueNames(sch, kind, v) && TargetsIn(kind, sch.Keys)
    requires Get(s', id, c) == Get(s, id, c)
    requires CellHolds(sch, base, s, kind, id, c, v)
    ensures CellHolds(sch, base, s', kind, id, c, v)
    decreases Nest(v), v, 6, 0
  {
    var x := Get(s, id, c);
    if kind.One? && !(kind.nullable && v.Null?) {
      SlotHoldsStable(sch, base, s, s', m, kind.elem, x, v, false);
    } else if kind.Many? && x.List? && v.Vec? {
      ItemsHoldStable(sch, base, s, s', m, kind.elem, x.items, v, 0);
    }
  }

  lemma {:induction false} ItemsHoldStable(sch: Schema, base: State, s: State, s': State, m: set<Name>,
                                           elem: Elem, items: seq<Cell>, v: Value, i: nat)
    requires v.Vec? && |items| == |v.elems| && i <= |items|
    requires Frame(sch, s, s', m) && m !! RestNames(sch, elem, v, i)
    requires elem.LinkElem? ==> elem.target in sch
    requires ItemsHold(sch, base, s, elem, items, v, i)
    ensures ItemsHold(sch, base, s', elem, items, v, i)
    decreases Nest(v), v, 5, |v.elems| - i
  {
    if i < |items| {
      SlotHoldsStable(sch, base, s, s', m, elem, items[i], v.elems[i], true);
      ItemsHoldStable(sch, base, s, s', m, elem, items, v, i + 1);
    }
  }

  lemma {:induction false} SlotHoldsStable(sch: Schema, base: State, s: State, s': State, m: set<Name>,
                                           elem: Elem, x: Cell, v: Value, inList: bool)
    requires Frame(sch, s, s', m) && m !! SlotNames(sch, elem, v)
    requires elem.LinkElem? ==> elem.target in sch
    requires SlotHolds(sch, base, s, elem, x, v, inList)
    ensures SlotHolds(sch, base, s', elem, x, v, inList)
    decreases Nest(v), v, 5, 0
  {
    if elem.LinkElem? && !v.Managed? {
      HoldsStable(sch, base, s, s', m, elem.target, x.key, v);
    }
  }

  // ---- A successful upsert leaves a store that holds the value ----------------------------------

  /** The cell a row starts an upsert with. */
  function BaseCell(sch: Schema, base: State, id: RowId, c: nat): Cell
    requires id.t in sch && c < |sch[id.t].props|
  {
    if id in base.rows then Get(base, id, c) else Initial(sch[id.t].props[c].kind)
  }

  ghost predicate Untouched(sch: Schema, base: State, s: State, id: RowId, i: nat)
    requires id.t in sch
  {
    forall c: nat | i <= c < |sch[id.t].props| && sch[id.t].pk != Some(c) ::
      Get(s, id, c) == BaseCell(sch, base, id, c)
  }

  lemma OpenUntouched(cfg: Config, base: State, m: set<Name>, s: State, t: TypeName, v: Value, current: Option<ObjKey>)
    requires Ready(cfg, s) && HasKey(cfg.schema, t) && v.Dict?
    requires Frame(cfg.schema, base, s, m) && m !! OwnName(cfg.schema, t, v)
    ensures var o := Open(cfg, s, t, v, current);
            o.r.Ok? ==>
              && Untouched(cfg.schema, base, o.s, RowId(t, o.r.value.key), 0)
              && (o.r.value.created <==> RowId(t, o.r.value.key) !in base.rows)
  {
    var o := Open(cfg, s, t, v, current);
    OpenSafe(cfg, s, t, v, current);
    if o.r.Ok? {
      var id := RowId(t, o.r.value.key);
      if id in s.rows {
        assert NameOf(cfg.schema, s, id) !in m;
        assert id in base.rows;
        RowKept(cfg.schema, base, s, m, id);
      }
    }
  }

  lemma {:induction false} CreateHolds(cfg: Config, base: State, m: set<Name>, s: State,
                                       t: TypeName, v: Value, current: Option<ObjKey>)
    requires Ready(cfg, s) && HasKey(cfg.schema, t) && Distinct(cfg.schema, t, v) && v.Dict?
    requires Frame(cfg.schema, base, s, m) && m !! Names(cfg.schema, t, v)
    ensures var st := Create(cfg, s, t, v, current);
            st.r.Ok? ==> Holds(cfg.schema, base, st.s, t, st.r.value, v)
    decreases Nest(v), v, 3, 0
  {
    hide Open, Populate;
    var o := Open(cfg, s, t, v, current);
    if o.r.Ok? {
      var own := OwnName(cfg.schema, t, v);
      OpenSafe(cfg, s, t, v, current);
      OpenFrame(cfg, s, t, v, current);
      OpenUntouched(cfg, base, m, s, t, v, current);
      FrameTrans(cfg.schema, base, s, o.s, m, own);
      PopulateHolds(cfg, base, m + own, o.s, t, o.r.value, v, 0);
      PopulateFrame(cfg, o.s, t, o.r.value, v, 0);
    }
  }

  lemma {:induction false} PopulateHolds(cfg: Config, base: State, m: set<Name>, s: State,
                                         t: TypeName, row: Opened, v: Value, i: nat)
    requires Ready(cfg, s) && t in cfg.schema && i <= |cfg.schema[t].props| && v.Dict?
    requires RowId(t, row.key) in s.rows && row.skipPrimary
    requires DistinctFrom(cfg.schema, t, v, i)
    requires NameOf(cfg.schema, s, RowId(t, row.key)) !in NamesFrom(cfg.schema, t, v, i)
    requires Frame(cfg.schema, base, s, m) && m !! NamesFrom(cfg.schema, t, v, i)
    requires NameOf(cfg.schema, s, RowId(t, row.key)) in m
    requires Untouched(cfg.schema, base, s, RowId(t, row.key), i)
    requires row.created <==> RowId(t, row.key) !in base.rows
    ensures var st := Populate(cfg, s, t, row, v, i);
            st.r.Ok? ==> HoldsFrom(cfg.schema, base, st.s, t, row.key, v, i)
    decreases Nest(v), v, 2, |cfg.schema[t].props| - i
  {
    hide PopulateOne, HoldsProp, WellFormed, Unique, PropNames, DistinctProp;
    if i < |cfg.schema[t].props| {
      var p := PopulateOne(cfg, s, t, row, v, i);
      if p.r.Ok? {
        var m' := m + PropNames(cfg.schema, t, v, i);
        PopulateOneSafe(cfg, s, t, row, v, i);
        PopulateOneHolds(cfg, base, m, s, t, row, v, i);
        PopulateOneMoves(cfg, base, m, s, t, row, v, i);
        PopulateHolds(cfg, base, m', p.s, t, row, v, i + 1);
        if Populate(cfg, p.s, t, row, v, i + 1).r.Ok? {
          PopulateRest(cfg, base, p.s, t, row, v, i);
        }
      }
    }
  }

  /** Setting the later properties does not undo the one just set. */
  lemma PopulateRest(cfg: Config, base: State, s: State, t: TypeName, row: Opened, v: Value, i: nat)
    requires Ready(cfg, s) && t in cfg.schema && i < |cfg.schema[t].props| && v.Dict?
    requires RowId(t, row.key) in s.rows && row.skipPrimary
    requires DistinctFrom(cfg.schema, t, v, i)
    requires NameOf(cfg.schema, s, RowId(t, row.key)) !in NamesFrom(cfg.schema, t, v, i)
    requires HoldsProp(cfg.schema, base, s, t, row.key, v, i)
    ensures HoldsProp(cfg.schema, base, Populate(cfg, s, t, row, v, i + 1).s, t, row.key, v, i)
  {
    var own, rest := {NameOf(cfg.schema, s, RowId(t, row.key))}, NamesFrom(cfg.schema, t, v, i + 1);
    PopulateFrame(cfg, s, t, row, v, i + 1);
    HoldsPropStable(cfg.schema, base, s, Populate(cfg, s, t, row, v, i + 1).s, own + rest, t, row.key, v, i);
  }

  /** The hypotheses of the loop carry over one step. */
  lemma PopulateOneMoves(cfg: Config, base: State, m: set<Name>, s: State, t: TypeName, row: Opened, v: Value, i: nat)
    requires Ready(cfg, s) && t in cfg.schema && i < |cfg.schema[t].props| && v.Dict?
    requires RowId(t, row.key) in s.rows && row.skipPrimary
    requires DistinctProp(cfg.schema, t, v, i)
    requires NameOf(cfg.schema, s, RowId(t, row.key)) !in PropNames(cfg.schema, t, v, i)
    requires Frame(cfg.schema, base, s, m) && NameOf(cfg.schema, s, RowId(t, row.key)) in m
    requires Untouched(cfg.schema, base, s, RowId(t, row.key), i)
    ensures var s' := PopulateOne(cfg, s, t, row, v, i).s;
            && NameOf(cfg.schema, s', RowId(t, row.key)) == NameOf(cfg.schema, s, RowId(t, row.key))
            && Frame(cfg.schema, base, s', m + PropNames(cfg.schema, t, v, i))
            && Untouched(cfg.schema, base, s', RowId(t, row.key), i + 1)
  {
    var own := {NameOf(cfg.schema, s, RowId(t, row.key))};
    var mine := PropNames(cfg.schema, t, v, i);
    var s' := PopulateOne(cfg, s, t, row, v, i).s;
    PopulateOneFrame(cfg, s, t, row, v, i);
    FrameTrans(cfg.schema, base, s, s', m, own + mine);
    assert m + (own + mine) == m + mine;
  }

  lemma {:induction false} PopulateOneHolds(cfg: Config, base: State, m: set<Name>, s: State,
                                            t: TypeName, row: Opened, v: Value, i: nat)
    requires Ready(cfg, s) && t in cfg.schema && i < |cfg.schema[t].props| && v.Dict?
    requires RowId(t, row.key) in s.rows && row.skipPrimary
    requires DistinctProp(cfg.schema, t, v, i)
    requires NameOf(cfg.schema, s, RowId(t, row.key)) !in PropNames(cfg.schema, t, v, i)
    requires Frame(cfg.schema, base, s, m) && m !! PropNames(cfg.schema, t, v, i)
    requires Untouched(cfg.schema, base, s, RowId(t, row.key), i)
    requires row.created <==> RowId(t, row.key) !in base.rows
    ensures var st := PopulateOne(cfg, s, t, row, v, i);
            st.r.Ok? ==> HoldsProp(cfg.schema, base, st.s, t, row.key, v, i)
    decreases Nest(v), v, 1, 0
  {
    hide SetPropertyImpl;
    var prop := cfg.schema[t].props[i];
    var id := RowId(t, row.key);
    if cfg.schema[t].pk == Some(i) {
    } else if prop.name in v.fields {
      SetPropertyHolds(cfg, base, m, s, id, i, prop.kind, v.fields[prop.name], false);
    } else if row.created && prop.default.Some? {
      SetPropertyHolds(cfg, base, m, s, id, i, prop.kind, prop.default.value, true);
    }
  }

  lemma {:induction false} SetPropertyHolds(cfg: Config, base: State, m: set<Name>, s: State,
                                            id: RowId, c: nat, kind: Kind, v: Value, isDefault: bool)
    requires Ready(cfg, s) && Writable(cfg, s, id, c, kind) && TargetsIn(kind, cfg.schema.Keys)
    requires DistinctValue(cfg.schema, kind, v)
    requires NameOf(cfg.schema, s, id) !in ValueNames(cfg.schema, kind, v)
    requires Frame(cfg.schema, base, s, m) && m !! ValueNames(cfg.schema, kind, v)
    requires isDefault ==> Get(s, id, c) == Initial(kind)
    ensures var st := SetPropertyImpl(cfg, s, id, c, kind, v, isDefault);
            st.r.Ok? ==> CellHolds(cfg.schema, base, st.s, kind, id, c, v)
    decreases Nest(v), v, 6, 0
  {
    hide AssignList, Unbox, WellFormed, Unique;
    HasCell(cfg, s, id, c, kind);
    if IsNullable(kind) && v.Null? {
    } else if kind.Many? {
      AssignListHolds(cfg, base, m, s, id, c, kind.elem, v);
    } else if kind.One? {
      var before := Get(s, id, c);
      var u := Unbox(cfg, s, kind.elem, v, before, false);
      if u.r.Ok? {
        var names := ValueNames(cfg.schema, kind, v);
        UnboxSafe(cfg, s, kind.elem, v, before, false);
        UnboxFrame(cfg, s, kind.elem, v, before, false);
        UnboxHolds(cfg, base, m, s, kind.elem, v, before, false);
        RowKept(cfg.schema, s, u.s, names, id);
        AssignHolds(cfg, base, u.s, id, c, kind.elem, u.r.value, v);
      }
    }
  }

  lemma HasCell(cfg: Config, s: State, id: RowId, c: nat, kind: Kind)
    requires WellFormed(cfg.schema, s) && Writable(cfg, s, id, c, kind)
    ensures c < |s.rows[id]|
  {
    assert RowOk(s.rows.Keys, cfg.schema[id.t], s.rows[id]);
  }

  lemma AssignHolds(cfg: Config, base: State, s: State, id: RowId, c: nat, elem: Elem, x: Cell, v: Value)
    requires id in s.rows && id.t in cfg.schema && (HasKey(cfg.schema, id.t) ==> cfg.schema[id.t].pk.value != c)
    requires elem.LinkElem? ==> elem.target in cfg.schema
    requires SlotHolds(cfg.schema, base, s, elem, x, v, false)
    requires NameOf(cfg.schema, s, id) !in SlotNames(cfg.schema, elem, v)
    ensures SlotHolds(cfg.schema, base, Assign(s, id, c, x), elem, x, v, false)
  {
    var m := {NameOf(cfg.schema, s, id)};
    assert Frame(cfg.schema, s, Assign(s, id, c, x), m);
    SlotHoldsStable(cfg.schema, base, s, Assign(s, id, c, x), m, elem, x, v, false);
  }

  lemma {:induction false} UnboxHolds(cfg: Config, base: State, m: set<Name>, s: State,
                                      elem: Elem, v: Value, current: Cell, inList: bool)
    requires Ready(cfg, s) && (elem.LinkElem? ==> elem.target in cfg.schema)
    requires DistinctSlot(cfg.schema, elem, v)
    requires Frame(cfg.schema, base, s, m) && m !! SlotNames(cfg.schema, elem, v)
    ensures var st := Unbox(cfg, s, elem, v, current, inList);
            st.r.Ok? ==> SlotHolds(cfg.schema, base, st.s, elem, st.r.value, v, inList)
    decreases Nest(v), v, 4, 0
  {
    if elem.LinkElem? && !v.Managed? {
      if v.Dict? {
        CreateHolds(cfg, base, m, s, elem.target, v, Passed(cfg, current));
      }
    }
  }

  // ---- Lists ------------------------------------------------------------------------------------

  function Max(x: nat, y: nat): nat {
    if x < y then y else x
  }

  lemma ListCell(cfg: Config, s: State, id: RowId, c: nat, elem: Elem)
    requires WellFormed(cfg.schema, s) && Writable(cfg, s, id, c, Many(elem))
    ensures c < |s.rows[id]| && Get(s, id, c).List?
  {
    assert CellOk(s.rows.Keys, Many(elem), Get(s, id, c));
  }

  /** Trimming a list of sz items to index items succeeds and keeps the first index of them. */
  lemma {:induction false} TrimItems(s: State, id: RowId, c: nat, index: nat, sz: nat)
    requires id in s.rows && c < |s.rows[id]| && Get(s, id, c).List?
    requires sz == |Items(s, id, c)| || index >= sz
    ensures var st := Trim(s, id, c, index, sz);
            && st.r == Ok(())
            && Get(st.s, id, c).List?
            && Items(st.s, id, c) == if index < sz then Items(s, id, c)[..index] else Items(s, id, c)
    decreases sz
  {
    if index < sz {
      var s1 := RemoveSlot(s, id, c, sz - 1);
      var items := Items(s, id, c);
      assert Items(s1, id, c) == items[..sz - 1];
      TrimItems(s1, id, c, index, sz - 1);
    }
  }

  lemma {:induction false} AssignListHolds(cfg: Config, base: State, m: set<Name>, s: State,
                                           id: RowId, c: nat, elem: Elem, v: Value)
    requires Ready(cfg, s) && Writable(cfg, s, id, c, Many(elem))
    requires elem.LinkElem? ==> elem.target in cfg.schema
    requires DistinctValue(cfg.schema, Many(elem), v)
    requires NameOf(cfg.schema, s, id) !in ValueNames(cfg.schema, Many(elem), v)
    requires Frame(cfg.schema, base, s, m) && m !! ValueNames(cfg.schema, Many(elem), v)
    ensures var st := AssignList(cfg, s, id, c, elem, v);
            st.r.Ok? ==> CellHolds(cfg.schema, base, st.s, Many(elem), id, c, v)
    decreases Nest(v), v, 5, if v.Vec? then |v.elems| + 1 else 0
  {
    hide AssignFrom, Trim, SlotHolds, WellFormed, Unique;
    var own := {NameOf(cfg.schema, s, id)};
    ListCell(cfg, s, id, c, elem);
    if v.Vec? {
      var s1 := Prepared(cfg, s, id, c);
      var sz := Reusable(cfg, s, id, c);
      PreparedFrame(cfg, s, id, c, elem);
      FrameTrans(cfg.schema, base, s, s1, m, own);
      var l := AssignFrom(cfg, s1, id, c, elem, v, 0, sz);
      if l.r.Ok? {
        AssignFromSafe(cfg, s1, id, c, elem, v, 0, sz);
        AssignFromFrame(cfg, s1, id, c, elem, v, 0, sz);
        AssignFromHolds(cfg, base, m + own, s1, id, c, elem, v, 0, sz);
        TrimItems(l.s, id, c, |v.elems|, sz);
        TrimFrame(cfg, l.s, id, c, elem, |v.elems|, sz);
        ItemsHoldStable(cfg.schema, base, l.s, Trim(l.s, id, c, |v.elems|, sz).s, own, elem,
                        Items(l.s, id, c)[..|v.elems|], v, 0);
        assert |v.elems| >= sz ==> Items(l.s, id, c)[..|v.elems|] == Items(l.s, id, c);
      }
    }
  }

  lemma {:induction false} AssignFromHolds(cfg: Config, base: State, m: set<Name>, s: State,
                                           id: RowId, c: nat, elem: Elem, v: Value, i: nat, sz: nat)
    requires Ready(cfg, s) && Writable(cfg, s, id, c, Many(elem))
    requires elem.LinkElem? ==> elem.target in cfg.schema
    requires v.Vec? && i <= |v.elems|
    requires DistinctRest(cfg.schema, elem, v, i)
    requires NameOf(cfg.schema, s, id) !in RestNames(cfg.schema, elem, v, i)
    requires Frame(cfg.schema, base, s, m) && m !! RestNames(cfg.schema, elem, v, i)
    requires |Items(s, id, c)| == Max(i, sz)
    ensures var st := AssignFrom(cfg, s, id, c, elem, v, i, sz);
            var items := Items(st.s, id, c);
            st.r.Ok? ==>
              && Get(st.s, id, c).List?
              && |items| == Max(|v.elems|, sz)
              && items[..i] == Items(s, id, c)[..i]
              && ItemsHold(cfg.schema, base, st.s, elem, items[..|v.elems|], v, i)
    decreases Nest(v), v, 5, |v.elems| - i
  {
    hide AssignOne, SlotHolds, WellFormed, Unique;
    ListCell(cfg, s, id, c, elem);
    if i < |v.elems| {
      var a := AssignOne(cfg, s, id, c, elem, v, i, sz);
      if a.r.Ok? {
        var own := {NameOf(cfg.schema, s, id)};
        var names := SlotNames(cfg.schema, elem, v.elems[i]);
        AssignOneSafe(cfg, s, id, c, elem, v, i, sz);
        AssignOneFrame(cfg, s, id, c, elem, v, i, sz);
        AssignOneHolds(cfg, base, m, s, id, c, elem, v, i, sz);
        FrameTrans(cfg.schema, base, s, a.s, m, own + names);
        AssignFromHolds(cfg, base, m + (own + names), a.s, id, c, elem, v, i + 1, sz);
        AssignFromFrame(cfg, a.s, id, c, elem, v, i + 1, sz);
        var st := AssignFrom(cfg, a.s, id, c, elem, v, i + 1, sz);
        if st.r.Ok? {
          JoinItems(cfg.schema, base, a.s, st.s, own + RestNames(cfg.schema, elem, v, i + 1), elem,
                    Items(s, id, c), Items(a.s, id, c), Items(st.s, id, c), v, i);
        }
      }
    }
  }

  /** Element i was stored in the step to s1 and the rest in the steps to s2. */
  lemma JoinItems(sch: Schema, base: State, s1: State, s2: State, m: set<Name>, elem: Elem,
                  items0: seq<Cell>, items1: seq<Cell>, items2: seq<Cell>, v: Value, i: nat)
    requires v.Vec? && i < |v.elems| && i <= |items0| && i < |items1| && |v.elems| <= |items2|
    requires elem.LinkElem? ==> elem.target in sch
    requires Frame(sch, s1, s2, m) && m !! SlotNames(sch, elem, v.elems[i])
    requires items1[..i] == items0[..i] && items2[..i + 1] == items1[..i + 1]
    requires SlotHolds(sch, base, s1, elem, items1[i], v.elems[i], true)
    requires ItemsHold(sch, base, s2, elem, items2[..|v.elems|], v, i + 1)
    ensures items2[..i] == items0[..i]
    ensures ItemsHold(sch, base, s2, elem, items2[..|v.elems|], v, i)
  {
    assert items2[..i] == items2[..i + 1][..i] == items1[..i];
    assert items2[i] == items2[..i + 1][i] == items1[i];
    SlotHoldsStable(sch, base, s1, s2, m, elem, items1[i], v.elems[i], true);
  }

  lemma {:induction false} AssignOneHolds(cfg: Config, base: State, m: set<Name>, s: State,
                                          id: RowId, c: nat, elem: Elem, v: Value, i: nat, sz: nat)
    requires Ready(cfg, s) && Writable(cfg, s, id, c, Many(elem))
    requires elem.LinkElem? ==> elem.target in cfg.schema
    requires v.Vec? && i < |v.elems|
    requires DistinctSlot(cfg.schema, elem, v.elems[i])
    requires NameOf(cfg.schema, s, id) !in SlotNames(cfg.schema, elem, v.elems[i])
    requires Frame(cfg.schema, base, s, m) && m !! SlotNames(cfg.schema, elem, v.elems[i])
    requires |Items(s, id, c)| == Max(i, sz)
    ensures var st := AssignOne(cfg, s, id, c, elem, v, i, sz);
            var items := Items(st.s, id, c);
            st.r.Ok? ==>
              && |items| == Max(i + 1, sz)
              && items[..i] == Items(s, id, c)[..i]
              && SlotHolds(cfg.schema, base, st.s, elem, items[i], v.elems[i], true)
    decreases Nest(v), v, 4, 1
  {
    hide Unbox, SlotHolds, WellFormed, Unique;
    var current := if i < sz then Items(s, id, c)[i] else NullCell;
    var names := SlotNames(cfg.schema, elem, v.elems[i]);
    var own := {NameOf(cfg.schema, s, id)};
    var u := Unbox(cfg, s, elem, v.elems[i], current, true);
    if u.r.Ok? {
      UnboxSafe(cfg, s, elem, v.elems[i], current, true);
      UnboxFrame(cfg, s, elem, v.elems[i], current, true);
      UnboxHolds(cfg, base, m, s, elem, v.elems[i], current, true);
      RowKept(cfg.schema, s, u.s, names, id);
      PlaceHolds(cfg, base, u.s, id, c, elem, current, u.r.value, v.elems[i], i, sz);
    }
  }

  /** Placing a slot at index i leaves the earlier items alone and the slot readable. */
  lemma PlaceHolds(cfg: Config, base: State, s: State, id: RowId, c: nat, elem: Elem, before: Cell, x: Cell, v: Value,
                   i: nat, sz: nat)
    requires WellFormed(cfg.schema, s) && Writable(cfg, s, id, c, Many(elem)) && Locked(cfg)
    requires elem.LinkElem? ==> elem.target in cfg.schema
    requires |Items(s, id, c)| == Max(i, sz) && (i < sz ==> before == Items(s, id, c)[i])
    requires SlotHolds(cfg.schema, base, s, elem, x, v, true)
    requires NameOf(cfg.schema, s, id) !in SlotNames(cfg.schema, elem, v)
    ensures var s' := PlaceItem(s, id, c, before, x, i, sz).s;
            && Items(s', id, c) == (if i < sz then Items(s, id, c)[i := x] else Items(s, id, c) + [x])
            && SlotHolds(cfg.schema, base, s', elem, x, v, true)
  {
    var own := {NameOf(cfg.schema, s, id)};
    var items := Items(s, id, c);
    var s' := PlaceItem(s, id, c, before, x, i, sz).s;
    if i >= sz {
      PutFrame(cfg, s, id, c, Many(elem), List(items + [x]), Appended(Loc(id, c), x));
      SlotHoldsStable(cfg.schema, base, s, s', own, elem, x, v, true);
    } else if Differs(before, x) {
      PutFrame(cfg, s, id, c, Many(elem), List(items[i := x]), SlotAssigned(Loc(id, c), i, items[i], x));
      SlotHoldsStable(cfg.schema, base, s, s', own, elem, x, v, true);
    }
  }
}
