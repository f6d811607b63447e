/** Setting values that make no object: null, scalars, managed objects, and sequences of scalars or managed objects.
    What the cell holds afterwards depends on the value alone, and no other cell changes.
 */
module UpsertPlain {
  import opened Store
  import opened Upsert
  import opened UpsertReadback

  /** The slot a scalar or a managed object becomes. In a list, an object must be of the target type. */
  function PlainSlot(ids: set<RowId>, elem: Elem, v: Value, inList: bool): Result<Cell> {
    match elem
    case ScalarElem(base) => if v.Prim? && Matches(base, v.x) then Ok(Val(v.x)) else Err(BadCast)
    case LinkElem(target) =>
      if !v.Managed? then Err(BadCast)
      else if inList && v.id.t != target then Err(InvalidObject)
      else if RowId(target, v.id.key) !in ids then Err(KeyNotFound)
      else Ok(Link(v.id.key))
  }

  /** A value that makes no object where a column of the kind is set to it. */
  predicate Plain(kind: Kind, v: Value) {
    match kind
    case One(elem, nullable) => elem.ScalarElem? || v.Managed? || (nullable && v.Null?)
    case Many(elem) => v.Null? || (v.Vec? && forall x | x in v.elems :: elem.ScalarElem? || x.Managed?)
    case LinkingObjects(_, _) => false
  }

  /** The column takes the value. */
  predicate Accepts(ids: set<RowId>, kind: Kind, v: Value)
    requires Plain(kind, v)
  {
    match kind
    case One(elem, nullable) => (nullable && v.Null?) || PlainSlot(ids, elem, v, false).Ok?
    case Many(elem) => v.Vec? ==> forall x | x in v.elems :: PlainSlot(ids, elem, x, true).Ok?
  }

  /** The cell that a column takes for it. */
  function PlainCell(ids: set<RowId>, kind: Kind, v: Value): Cell
    requires Plain(kind, v) && Accepts(ids, kind, v)
  {
    match kind
    case One(elem, nullable) => if nullable && v.Null? then NullCell else PlainSlot(ids, elem, v, false).value
    case Many(elem) => if v.Null? then List([]) else List(PlainItems(ids, elem, v))
  }

  function PlainItems(ids: set<RowId>, elem: Elem, v: Value): (items: seq<Cell>)
    requires v.Vec? && forall x | x in v.elems :: PlainSlot(ids, elem, x, true).Ok?
    ensures |items| == |v.elems|
  {
    seq(|v.elems|, j requires 0 <= j < |v.elems| =>
      assert v.elems[j] in v.elems; PlainSlot(ids, elem, v.elems[j], true).value)
  }

  /** Only cell c of row id may differ. */
  ghost predicate OnlyCell(s: State, s': State, id: RowId, c: nat) {
    && id in s.rows && s'.rows.Keys == s.rows.Keys && s'.next == s.next
    && |s'.rows[id]| == |s.rows[id]|
    && forall id', c': nat | (id', c') != (id, c) :: Get(s', id', c') == Get(s, id', c')
  }

  ghost predicate AllPlain(ids: set<RowId>, elem: Elem, v: Value, i: nat)
    requires v.Vec?
  {
    forall j | i <= j < |v.elems| :: PlainSlot(ids, elem, v.elems[j], true).Ok?
  }

  lemma {:induction false} PlainFrom(cfg: Config, s: State, id: RowId, c: nat, elem: Elem, v: Value, i: nat, sz: nat)
    requires id in s.rows && c < |s.rows[id]| && Get(s, id, c).List?
    requires elem.LinkElem? ==> elem.target in cfg.schema
    requires Plain(Many(elem), v) && v.Vec? && i <= |v.elems| && |Items(s, id, c)| == Max(i, sz)
    ensures var st := AssignFrom(cfg, s, id, c, elem, v, i, sz);
            && (st.r.Ok? <==> AllPlain(s.rows.Keys, elem, v, i))
            && OnlyCell(s, st.s, id, c)
            && (st.r.Ok? ==>
                  && Get(st.s, id, c).List?
                  && |Items(st.s, id, c)| == Max(|v.elems|, sz)
                  && (forall j | 0 <= j < i :: Items(st.s, id, c)[j] == Items(s, id, c)[j])
                  && (forall j | i <= j < |v.elems| ::
                        Items(st.s, id, c)[j] == PlainSlot(s.rows.Keys, elem, v.elems[j], true).value))
    decreases |v.elems| - i
  {
    hide AssignOne, PlainSlot;
    if i < |v.elems| {
      PlainOne(cfg, s, id, c, elem, v, i, sz);
      var a := AssignOne(cfg, s, id, c, elem, v, i, sz);
      if a.r.Ok? {
        PlainFrom(cfg, a.s, id, c, elem, v, i + 1, sz);
      }
    }
  }

  lemma PlainOne(cfg: Config, s: State, id: RowId, c: nat, elem: Elem, v: Value, i: nat, sz: nat)
    requires id in s.rows && c < |s.rows[id]| && Get(s, id, c).List?
    requires elem.LinkElem? ==> elem.target in cfg.schema
    requires Plain(Many(elem), v) && v.Vec? && i < |v.elems| && |Items(s, id, c)| == Max(i, sz)
    ensures var a := AssignOne(cfg, s, id, c, elem, v, i, sz);
            var x := PlainSlot(s.rows.Keys, elem, v.elems[i], true);
            && (a.r.Ok? <==> x.Ok?)
            && OnlyCell(s, a.s, id, c)
            && (a.r.Ok? ==>
                  && Get(a.s, id, c).List?
                  && |Items(a.s, id, c)| == Max(i + 1, sz)
                  && Items(a.s, id, c)[i] == x.value
                  && (forall j | 0 <= j < |Items(s, id, c)| && j != i :: Items(a.s, id, c)[j] == Items(s, id, c)[j]))
  {
    assert v.elems[i] in v.elems;
  }

  /** Assigning a sequence to a list succeeds exactly if the list takes every element, and then the list holds them,
      whether it was overwritten in place and trimmed or cleared and filled. No other cell changes, also when the call
      fails.
   */
  lemma PlainListIsReplaced(cfg: Config, s: State, id: RowId, c: nat, elem: Elem, v: Value)
    requires id in s.rows && c < |s.rows[id]| && Get(s, id, c).List?
    requires elem.LinkElem? ==> elem.target in cfg.schema
    requires Plain(Many(elem), v) && v.Vec?
    ensures var st := AssignList(cfg, s, id, c, elem, v);
            && (st.r.Ok? <==> AllPlain(s.rows.Keys, elem, v, 0))
            && OnlyCell(s, st.s, id, c)
            && (st.r.Ok? ==>
                  && Get(st.s, id, c).List?
                  && |Items(st.s, id, c)| == |v.elems|
                  && forall j | 0 <= j < |v.elems| ::
                       Items(st.s, id, c)[j] == PlainSlot(s.rows.Keys, elem, v.elems[j], true).value)
  {
    hide AssignFrom, Trim, PlainSlot;
    var sz := Reusable(cfg, s, id, c);
    var s1 := Prepared(cfg, s, id, c);
    assert s1.rows.Keys == s.rows.Keys;
    PlainFrom(cfg, s1, id, c, elem, v, 0, sz);
    var l := AssignFrom(cfg, s1, id, c, elem, v, 0, sz);
    if l.r.Ok? {
      TrimItems(l.s, id, c, |v.elems|, sz);
      TrimOnlyCell(l.s, id, c, |v.elems|, sz);
    }
  }

  lemma {:induction false} TrimOnlyCell(s: State, id: RowId, c: nat, index: nat, sz: nat)
    requires id in s.rows
    ensures OnlyCell(s, Trim(s, id, c, index, sz).s, id, c)
    decreases sz
  {
    if index < sz <= |Items(s, id, c)| {
      TrimOnlyCell(RemoveSlot(s, id, c, sz - 1), id, c, index, sz - 1);
    }
  }

  /** Setting a cell to a plain value succeeds exactly if the column takes it, and then the cell holds it. No other
      cell changes, also when the call fails.
   */
  lemma PlainIsSet(cfg: Config, s: State, id: RowId, c: nat, v: Value)
    requires WellFormed(cfg.schema, s) && id in s.rows && c < |cfg.schema[id.t].props|
    requires Plain(cfg.schema[id.t].props[c].kind, v)
    ensures var kind := cfg.schema[id.t].props[c].kind;
            var st := SetPropertyImpl(cfg, s, id, c, kind, v, false);
            && (st.r.Ok? <==> Accepts(s.rows.Keys, kind, v))
            && OnlyCell(s, st.s, id, c)
            && (st.r.Ok? ==> Get(st.s, id, c) == PlainCell(s.rows.Keys, kind, v))
            && (st.r.Err? && kind.One? ==> st.s == s)
  {
    hide AssignList, SetPropertyImpl, Accepts, PlainCell, Plain;
    var kind := cfg.schema[id.t].props[c].kind;
    var ids := s.rows.Keys;
    assert RowOk(ids, cfg.schema[id.t], s.rows[id]) && CellOk(ids, kind, Get(s, id, c));
    if kind.Many? {
      ListIsSet(cfg, s, id, c, kind.elem, v);
      SetIsAssign(cfg, s, id, c, kind, v);
    } else {
      OneIsSet(cfg, s, id, c, kind, v);
    }
  }

  lemma SetIsAssign(cfg: Config, s: State, id: RowId, c: nat, kind: Kind, v: Value)
    requires kind.Many? && TargetsIn(kind, cfg.schema.Keys)
    ensures SetPropertyImpl(cfg, s, id, c, kind, v, false) == AssignList(cfg, s, id, c, kind.elem, v)
  {
  }

  lemma OneIsSet(cfg: Config, s: State, id: RowId, c: nat, kind: Kind, v: Value)
    requires id in s.rows && c < |s.rows[id]| && TargetsIn(kind, cfg.schema.Keys)
    requires !kind.Many? && Plain(kind, v)
    ensures var st := SetPropertyImpl(cfg, s, id, c, kind, v, false);
            && (st.r.Ok? <==> Accepts(s.rows.Keys, kind, v))
            && OnlyCell(s, st.s, id, c)
            && (st.r.Ok? ==> Get(st.s, id, c) == PlainCell(s.rows.Keys, kind, v))
            && (st.r.Err? ==> st.s == s)
  {
  }

  lemma ListIsSet(cfg: Config, s: State, id: RowId, c: nat, elem: Elem, v: Value)
    requires id in s.rows && c < |s.rows[id]| && Get(s, id, c).List?
    requires elem.LinkElem? ==> elem.target in cfg.schema
    requires Plain(Many(elem), v)
    ensures var st := AssignList(cfg, s, id, c, elem, v);
            && (st.r.Ok? <==> Accepts(s.rows.Keys, Many(elem), v))
            && OnlyCell(s, st.s, id, c)
            && (st.r.Ok? ==> Get(st.s, id, c) == PlainCell(s.rows.Keys, Many(elem), v))
  {
    hide AssignFrom, Trim, PlainSlot;
    if v.Vec? {
      PlainListIsReplaced(cfg, s, id, c, elem, v);
      var st := AssignList(cfg, s, id, c, elem, v);
      if st.r.Ok? {
        assert Items(st.s, id, c) == PlainItems(s.rows.Keys, elem, v);
      }
    }
  }
}
