/** Lists of objects without primary keys. UpdateModified overwrites the objects that are there and creates only
    the ones that are missing, if the accessor context passes their keys on; otherwise every object is new.
 */
module UpsertReuse {
  import opened Store
  import opened Upsert
  import opened UpsertSafety
  import opened UpsertFrame
  import opened UpsertReadback

  /** A dictionary all of whose properties, defaults included, are set without creating an object. */
  predicate FlatDict(sch: Schema, t: TypeName, v: Value)
    requires t in sch
  {
    v.Dict? && forall i | 0 <= i < |sch[t].props| ::
      var x := Source(v, sch[t].props[i]);
      x.Some? ==> Flat(x.value) && DistinctValue(sch, sch[t].props[i].kind, x.value)
  }

  lemma {:induction false} FlatElemNames(sch: Schema, t: TypeName, v: Value, i: nat)
    requires v.Vec? && Flat(v) && i <= |v.elems|
    ensures ElemNames(sch, t, v, i) == {}
    decreases |v.elems| - i
  {
    if i < |v.elems| {
      assert v.elems[i] in v.elems;
      FlatElemNames(sch, t, v, i + 1);
    }
  }

  lemma FlatValueNames(sch: Schema, kind: Kind, v: Value)
    requires Flat(v)
    ensures ValueNames(sch, kind, v) == {}
  {
    if kind.Many? && kind.elem.LinkElem? && v.Vec? {
      FlatElemNames(sch, kind.elem.target, v, 0);
    }
  }

  lemma {:induction false} FlatDictNames(sch: Schema, t: TypeName, v: Value, i: nat)
    requires t in sch && FlatDict(sch, t, v) && i <= |sch[t].props|
    ensures NamesFrom(sch, t, v, i) == {} && DistinctFrom(sch, t, v, i)
    decreases |sch[t].props| - i
  {
    if i < |sch[t].props| {
      var x := Source(v, sch[t].props[i]);
      if x.Some? {
        FlatValueNames(sch, sch[t].props[i].kind, x.value);
      }
      FlatDictNames(sch, t, v, i + 1);
    }
  }

  /** A keyless create that is given the current object fills that one under UpdateModified only. */
  predicate Overwrites(cfg: Config, current: Option<ObjKey>) {
    cfg.policy.UpdateModified? && current.Some?
  }

  /** Updating an existing keyless object, or creating one, from a flat dictionary. */
  lemma CreateFlat(cfg: Config, base: State, m: set<Name>, s: State, t: TypeName, v: Value, current: Option<ObjKey>)
    requires Ready(cfg, s) && t in cfg.schema && cfg.schema[t].pk.None?
    requires FlatDict(cfg.schema, t, v)
    requires Overwrites(cfg, current) ==> RowId(t, current.value) in s.rows && Anon(RowId(t, current.value)) !in m
    requires Frame(cfg.schema, base, s, m)
    ensures var st := Create(cfg, s, t, v, current);
            var k := if Overwrites(cfg, current) then current.value else s.next;
            && Frame(cfg.schema, s, st.s, {Anon(RowId(t, k))})
            && st.s.rows.Keys == s.rows.Keys + {RowId(t, k)}
            && (st.r.Ok? ==>
                  && st.r.value == k
                  && st.s.next == (if Overwrites(cfg, current) then s.next else s.next + 1)
                  && HoldsFrom(cfg.schema, base, st.s, t, k, v, 0))
  {
    hide Open, Populate, WellFormed, Unique, Untouched;
    var o := Open(cfg, s, t, v, current);
    var k := if Overwrites(cfg, current) then current.value else s.next;
    var own := {Anon(RowId(t, k))};
    OpenFlat(cfg, base, m, s, t, v, current);
    FlatDictNames(cfg.schema, t, v, 0);
    PopulateHolds(cfg, base, m + own, o.s, t, o.r.value, v, 0);
    PopulateFrame(cfg, o.s, t, o.r.value, v, 0);
    var p := Populate(cfg, o.s, t, o.r.value, v, 0);
    FrameTrans(cfg.schema, s, o.s, p.s, own, own);
    assert own + own == own;
    PopulateCreatesNone(cfg, o.s, t, o.r.value, v, 0);
  }

  /** A keyless update that is given a current object which is not there is refused, whatever its value, and writes
      nothing.
   */
  lemma MissingCurrentIsRefused(cfg: Config, s: State, t: TypeName, v: Value, current: Option<ObjKey>)
    requires t in cfg.schema && cfg.schema[t].pk.None? && Overwrites(cfg, current)
    requires RowId(t, current.value) !in s.rows
    ensures Create(cfg, s, t, v, current) == Step(s, Err(KeyNotFound))
  {
  }

  /** Opening a keyless object: the current one as it is, or a new one. */
  lemma OpenFlat(cfg: Config, base: State, m: set<Name>, s: State, t: TypeName, v: Value, current: Option<ObjKey>)
    requires Ready(cfg, s) && t in cfg.schema && cfg.schema[t].pk.None?
    requires Overwrites(cfg, current) ==> RowId(t, current.value) in s.rows && Anon(RowId(t, current.value)) !in m
    requires Frame(cfg.schema, base, s, m)
    ensures var o := Open(cfg, s, t, v, current);
            var k := if Overwrites(cfg, current) then current.value else s.next;
            && Ready(cfg, o.s)
            && o.r == Ok(Opened(k, RowId(t, k) !in base.rows, true))
            && o.s.rows.Keys == s.rows.Keys + {RowId(t, k)}
            && o.s.next == (if Overwrites(cfg, current) then s.next else s.next + 1)
            && Frame(cfg.schema, s, o.s, {Anon(RowId(t, k))})
            && Frame(cfg.schema, base, o.s, m + {Anon(RowId(t, k))})
            && Untouched(cfg.schema, base, o.s, RowId(t, k), 0)
  {
    var o := Open(cfg, s, t, v, current);
    var k := if Overwrites(cfg, current) then current.value else s.next;
    OpenSafe(cfg, s, t, v, current);
    assert Frame(cfg.schema, s, o.s, {Anon(RowId(t, k))});
    FrameTrans(cfg.schema, base, s, o.s, m, {Anon(RowId(t, k))});
    assert RowId(t, k) in s.rows ==> RowId(t, k) in base.rows && s.rows[RowId(t, k)] == base.rows[RowId(t, k)];
  }

  // ---- Flat values create no rows ---------------------------------------------------------------

  lemma {:induction false} PopulateCreatesNone(cfg: Config, s: State, t: TypeName, row: Opened, v: Value, i: nat)
    requires t in cfg.schema && FlatDict(cfg.schema, t, v) && i <= |cfg.schema[t].props|
    requires cfg.schema[t].pk.None?
    ensures var s' := Populate(cfg, s, t, row, v, i).s; s'.rows.Keys == s.rows.Keys && s'.next == s.next
    decreases |cfg.schema[t].props| - i
  {
    if i < |cfg.schema[t].props| {
      var prop := cfg.schema[t].props[i];
      var x := Source(v, prop);
      if x.Some? {
        SetFlatCreatesNone(cfg, s, RowId(t, row.key), i, prop.kind, x.value, prop.name !in v.fields);
      }
      PopulateCreatesNone(cfg, PopulateOne(cfg, s, t, row, v, i).s, t, row, v, i + 1);
    }
  }

  lemma PutKeys(s: State, id: RowId, c: nat, x: Cell, w: Write)
    ensures Put(s, id, c, x, w).rows.Keys == s.rows.Keys
  {
  }

  lemma SetFlatCreatesNone(cfg: Config, s: State, id: RowId, c: nat, kind: Kind, v: Value, isDefault: bool)
    requires TargetsIn(kind, cfg.schema.Keys) && Flat(v) && DistinctValue(cfg.schema, kind, v)
    ensures var s' := SetPropertyImpl(cfg, s, id, c, kind, v, isDefault).s;
            s'.rows.Keys == s.rows.Keys && s'.next == s.next
  {
    if kind.Many? {
      var s1 := Prepared(cfg, s, id, c);
      PutKeys(s, id, c, List([]), Cleared(Loc(id, c)));
      if v.Vec? {
        AssignFlatCreatesNone(cfg, s1, id, c, kind.elem, v, 0, Reusable(cfg, s, id, c));
        TrimCreatesNone(AssignFrom(cfg, s1, id, c, kind.elem, v, 0, Reusable(cfg, s, id, c)).s, id, c, |v.elems|,
                        Reusable(cfg, s, id, c));
      }
    } else if kind.One? {
      PutKeys(s, id, c, NullCell, Assigned(Loc(id, c), Get(s, id, c), NullCell));
      if !(kind.nullable && v.Null?) {
        var u := Unbox(cfg, s, kind.elem, v, Get(s, id, c), false);
        UnboxFlatCreatesNone(cfg, s, kind.elem, v, Get(s, id, c), false);
        if u.r.Ok? {
          PutKeys(s, id, c, u.r.value, Assigned(Loc(id, c), Get(s, id, c), u.r.value));
        }
      }
    }
  }

  lemma UnboxFlatCreatesNone(cfg: Config, s: State, elem: Elem, v: Value, current: Cell, inList: bool)
    requires (elem.LinkElem? ==> elem.target in cfg.schema) && Flat(v) && DistinctSlot(cfg.schema, elem, v)
    ensures Unbox(cfg, s, elem, v, current, inList).s == s
  {
  }

  lemma {:induction false} AssignFlatCreatesNone(cfg: Config, s: State, id: RowId, c: nat, elem: Elem, v: Value,
                                                 i: nat, sz: nat)
    requires (elem.LinkElem? ==> elem.target in cfg.schema) && v.Vec? && Flat(v) && i <= |v.elems|
    requires DistinctRest(cfg.schema, elem, v, i)
    ensures var s' := AssignFrom(cfg, s, id, c, elem, v, i, sz).s; s'.rows.Keys == s.rows.Keys && s'.next == s.next
    decreases |v.elems| - i
  {
    if i < |v.elems| {
      var before := if i < sz && i < |Items(s, id, c)| then Items(s, id, c)[i] else NullCell;
      var a := AssignOne(cfg, s, id, c, elem, v, i, sz);
      assert v.elems[i] in v.elems;
      UnboxFlatCreatesNone(cfg, s, elem, v.elems[i], before, true);
      assert a.s.rows.Keys == s.rows.Keys && a.s.next == s.next;
      AssignFlatCreatesNone(cfg, a.s, id, c, elem, v, i + 1, sz);
    }
  }

  lemma {:induction false} TrimCreatesNone(s: State, id: RowId, c: nat, index: nat, sz: nat)
    ensures var s' := Trim(s, id, c, index, sz).s; s'.rows.Keys == s.rows.Keys && s'.next == s.next
    decreases sz
  {
    if index < sz <= |Items(s, id, c)| {
      var s1 := RemoveSlot(s, id, c, sz - 1);
      assert s1.rows.Keys == s.rows.Keys;
      TrimCreatesNone(s1, id, c, index, sz - 1);
    }
  }

  // ---- The loop ---------------------------------------------------------------------------------

  /** The call overwrites the objects that are in the list already. */
  predicate Keeps(cfg: Config) {
    cfg.policy.UpdateModified? && cfg.passesKey
  }

  /** The objects that may be overwritten, at positions i up to sz, as names. */
  function ItemNames(cfg: Config, t: TypeName, items: seq<Cell>, i: nat, sz: nat): set<Name>
    requires sz <= |items|
  {
    set j | i <= j < sz && items[j].Link? && Keeps(cfg) :: Anon(RowId(t, items[j].key))
  }

  /** The keys given out between two states, as names. */
  function NewNames(t: TypeName, from: ObjKey, to: ObjKey): set<Name> {
    set k | from <= k < to :: Anon(RowId(t, k))
  }

  function NewRows(t: TypeName, from: ObjKey, to: ObjKey): set<RowId> {
    set k | from <= k < to :: RowId(t, k)
  }

  ghost predicate DistinctItems(items: seq<Cell>) {
    forall j, j' | 0 <= j < j' < |items| :: items[j] != items[j']
  }

  /** A list of keyless objects, to be filled from flat dictionaries, in which its owner does not occur. */
  ghost predicate Filling(cfg: Config, s: State, id: RowId, c: nat, t: TypeName, v: Value) {
    && Ready(cfg, s)
    && t in cfg.schema && cfg.schema[t].pk.None?
    && Writable(cfg, s, id, c, Many(LinkElem(t)))
    && v.Vec? && (forall e | e in v.elems :: FlatDict(cfg.schema, t, e))
    && (forall j | 0 <= j < |Items(s, id, c)| :: Items(s, id, c)[j] != Link(id.key) || id.t != t)
  }

  /** The slot at position j once positions from i on are assigned: the object that was there or a new one. */
  function SlotAt(cfg: Config, items: seq<Cell>, next: ObjKey, i: nat, n: nat, j: nat): Cell
    requires i <= |items| && j < Max(n, |items|)
  {
    if Keeps(cfg) then (if j < |items| then items[j] else Link(next + j - |items|))
    else if i <= j < n then Link(next + j - i)
    else items[j]
  }

  predicate RowHolds(sch: Schema, base: State, s: State, t: TypeName, k: ObjKey, v: Value) {
    v.Dict? && t in sch && HoldsFrom(sch, base, s, t, k, v, 0)
  }

  /** The number of objects one element creates. */
  function NewCount(cfg: Config, i: nat, sz: nat): nat {
    if Keeps(cfg) && i < sz then 0 else 1
  }

  /** One element has been assigned: x is the slot it went to. */
  ghost predicate FilledOne(cfg: Config, base: State, s: State, s': State, id: RowId, c: nat, t: TypeName, v: Value,
                            i: nat, sz: nat, x: Cell) {
    && x.Link?
    && Filling(cfg, s', id, c, t, v)
    && i <= |Items(s, id, c)| && (i < sz ==> i < |Items(s, id, c)|)
    && Items(s', id, c) == (if i < sz then Items(s, id, c)[i := x] else Items(s, id, c) + [x])
    && s'.next == s.next + NewCount(cfg, i, sz)
    && s'.rows.Keys == s.rows.Keys + {RowId(t, x.key)}
    && Frame(cfg.schema, s, s', {NameOf(cfg.schema, s, id), Anon(RowId(t, x.key))})
    && (i < |v.elems| ==> RowHolds(cfg.schema, base, s', t, x.key, v.elems[i]))
  }

  lemma ListedOk(cfg: Config, s: State, id: RowId, c: nat, t: TypeName, v: Value, i: nat)
    requires Filling(cfg, s, id, c, t, v) && i < |Items(s, id, c)|
    ensures Items(s, id, c)[i].Link? && RowId(t, Items(s, id, c)[i].key) in s.rows
    ensures RowId(t, Items(s, id, c)[i].key) != id && Items(s, id, c)[i].key < s.next
  {
    assert CellOk(s.rows.Keys, Many(LinkElem(t)), Get(s, id, c));
    assert Items(s, id, c)[i] in Items(s, id, c);
  }

  lemma FillInPlace(cfg: Config, base: State, m: set<Name>, s: State, id: RowId, c: nat, t: TypeName,
                    v: Value, i: nat, sz: nat)
    requires Filling(cfg, s, id, c, t, v) && i < |v.elems| && i < sz && |Items(s, id, c)| == Max(i, sz) && Keeps(cfg)
    requires Frame(cfg.schema, base, s, m)
    requires Items(s, id, c)[i].Link? && Anon(RowId(t, Items(s, id, c)[i].key)) !in m
    ensures var a := AssignOne(cfg, s, id, c, LinkElem(t), v, i, sz);
            a.r.Ok? ==> FilledOne(cfg, base, s, a.s, id, c, t, v, i, sz, Items(s, id, c)[i])
  {
    hide WellFormed, Unique, Create;
    var x := Items(s, id, c)[i];
    ListedOk(cfg, s, id, c, t, v, i);
    assert v.elems[i] in v.elems;
    CreateFlat(cfg, base, m, s, t, v.elems[i], Some(x.key));
    AssignOneSafe(cfg, s, id, c, LinkElem(t), v, i, sz);
    var a := AssignOne(cfg, s, id, c, LinkElem(t), v, i, sz);
    var u := Create(cfg, s, t, v.elems[i], Some(x.key));
    if a.r.Ok? {
      assert Unbox(cfg, s, LinkElem(t), v.elems[i], x, true) == Step(u.s, Ok(x));
      assert a.s == u.s;
      RowKept(cfg.schema, s, u.s, {Anon(RowId(t, x.key))}, id);
      FrameMono(cfg.schema, s, u.s, {Anon(RowId(t, x.key))}, {NameOf(cfg.schema, s, id), Anon(RowId(t, x.key))});
      assert Items(s, id, c)[i := x] == Items(s, id, c);
    }
  }

  lemma FillNew(cfg: Config, base: State, m: set<Name>, s: State, id: RowId, c: nat, t: TypeName,
                v: Value, i: nat, sz: nat)
    requires Filling(cfg, s, id, c, t, v) && i < |v.elems| && |Items(s, id, c)| == Max(i, sz)
    requires i >= sz || !Keeps(cfg)
    requires Frame(cfg.schema, base, s, m)
    ensures var a := AssignOne(cfg, s, id, c, LinkElem(t), v, i, sz);
            a.r.Ok? ==> FilledOne(cfg, base, s, a.s, id, c, t, v, i, sz, Link(s.next))
  {
    hide WellFormed, Unique, Create, Frame, FlatDict, HoldsFrom, Unbox, PlaceItem, AssignOne;
    var x := Link(s.next);
    var before := if i < sz then Items(s, id, c)[i] else NullCell;
    assert v.elems[i] in v.elems && v.elems[i].Dict? by {
      FlatIsDict(cfg.schema, t, v, i);
    }
    CreateNew(cfg, base, m, s, id, c, t, v.elems[i], Passed(cfg, before));
    AssignOneSafe(cfg, s, id, c, LinkElem(t), v, i, sz);
    if i < sz {
      ListedOk(cfg, s, id, c, t, v, i);
    }
    PlacedNew(cfg, s, id, c, t, v, i, sz);
    var a := AssignOne(cfg, s, id, c, LinkElem(t), v, i, sz);
    var u := Create(cfg, s, t, v.elems[i], Passed(cfg, before));
    if a.r.Ok? {
      var items := if i < sz then Items(s, id, c)[i := x] else Items(s, id, c) + [x];
      var w := if i < sz then SlotAssigned(Loc(id, c), i, Items(s, id, c)[i], x) else Appended(Loc(id, c), x);
      PutHolds(cfg, base, s, u.s, id, c, t, x, v.elems[i], items, w);
      assert Get(a.s, id, c) == List(items);
    }
  }

  /** The slot of a new object is put in place, as it differs from all that were there. */
  lemma PlacedNew(cfg: Config, s: State, id: RowId, c: nat, t: TypeName, v: Value, i: nat, sz: nat)
    requires t in cfg.schema && v.Vec? && i < |v.elems| && v.elems[i].Dict?
    requires |Items(s, id, c)| == Max(i, sz) && (i < sz ==> Items(s, id, c)[i] != Link(s.next))
    requires var before := if i < sz then Items(s, id, c)[i] else NullCell;
             var u := Create(cfg, s, t, v.elems[i], Passed(cfg, before));
             u.r.Ok? ==> u.r.value == s.next && Items(u.s, id, c) == Items(s, id, c)
    ensures var before := if i < sz then Items(s, id, c)[i] else NullCell;
            var u := Create(cfg, s, t, v.elems[i], Passed(cfg, before));
            var a := AssignOne(cfg, s, id, c, LinkElem(t), v, i, sz);
            var x := Link(s.next);
            && (a.r.Ok? <==> u.r.Ok?)
            && (a.r.Ok? && i < sz ==>
                  a.s == Put(u.s, id, c, List(Items(s, id, c)[i := x]), SlotAssigned(Loc(id, c), i, before, x)))
            && (a.r.Ok? && i >= sz ==>
                  a.s == Put(u.s, id, c, List(Items(s, id, c) + [x]), Appended(Loc(id, c), x)))
  {
    hide Create;
    var before := if i < sz then Items(s, id, c)[i] else NullCell;
    var u := Create(cfg, s, t, v.elems[i], Passed(cfg, before));
    if u.r.Ok? {
      assert Unbox(cfg, s, LinkElem(t), v.elems[i], before, true) == Step(u.s, Ok(Link(s.next)));
    }
  }

  lemma FlatIsDict(sch: Schema, t: TypeName, v: Value, i: nat)
    requires t in sch && v.Vec? && i < |v.elems| && forall e | e in v.elems :: FlatDict(sch, t, e)
    ensures v.elems[i] in v.elems && v.elems[i].Dict?
  {
  }

  /** A new keyless object beside the row that will list it. */
  lemma CreateNew(cfg: Config, base: State, m: set<Name>, s: State, id: RowId, c: nat, t: TypeName, e: Value,
                  current: Option<ObjKey>)
    requires Ready(cfg, s) && t in cfg.schema && cfg.schema[t].pk.None?
    requires FlatDict(cfg.schema, t, e) && Writable(cfg, s, id, c, Many(LinkElem(t)))
    requires Frame(cfg.schema, base, s, m) && !Overwrites(cfg, current)
    ensures var u := Create(cfg, s, t, e, current);
            u.r.Ok? ==>
              && u.r.value == s.next && u.s.next == s.next + 1
              && WellFormed(cfg.schema, u.s)
              && u.s.rows.Keys == s.rows.Keys + {RowId(t, s.next)}
              && Frame(cfg.schema, s, u.s, {Anon(RowId(t, s.next))})
              && RowId(t, s.next) != id && id in u.s.rows && u.s.rows[id] == s.rows[id]
              && c < |s.rows[id]|
              && HoldsFrom(cfg.schema, base, u.s, t, s.next, e, 0)
  {
    hide Create;
    CreateFlat(cfg, base, m, s, t, e, current);
    CreateSafe(cfg, s, t, e, current);
  }

  lemma PutHolds(cfg: Config, base: State, s: State, s1: State, id: RowId, c: nat, t: TypeName, x: Cell, v: Value,
                 items: seq<Cell>, w: Write)
    requires WellFormed(cfg.schema, s1) && Writable(cfg, s1, id, c, Many(LinkElem(t))) && Locked(cfg)
    requires t in cfg.schema && cfg.schema[t].pk.None? && FlatDict(cfg.schema, t, v)
    requires x.Link? && RowId(t, x.key) != id && id in s.rows
    requires Frame(cfg.schema, s, s1, {Anon(RowId(t, x.key))})
    requires HoldsFrom(cfg.schema, base, s1, t, x.key, v, 0)
    ensures var s' := Put(s1, id, c, List(items), w);
            && Frame(cfg.schema, s, s', {NameOf(cfg.schema, s, id), Anon(RowId(t, x.key))})
            && s'.rows.Keys == s1.rows.Keys
            && HoldsFrom(cfg.schema, base, s', t, x.key, v, 0)
  {
    var s' := Put(s1, id, c, List(items), w);
    var hit, own := {Anon(RowId(t, x.key))}, {NameOf(cfg.schema, s, id)};
    RowKept(cfg.schema, s, s1, hit, id);
    PutKeys(s1, id, c, List(items), w);
    PutFrame(cfg, s1, id, c, Many(LinkElem(t)), List(items), w);
    FlatDictNames(cfg.schema, t, v, 0);
    HoldsFromStable(cfg.schema, base, s1, s', own, t, x.key, v, 0);
    FrameTrans(cfg.schema, s, s1, s', hit, own);
    assert hit + own == {NameOf(cfg.schema, s, id), Anon(RowId(t, x.key))};
  }

  /** The list after positions from i on have been assigned. */
  ghost predicate FilledItems(cfg: Config, s: State, s': State, id: RowId, c: nat, i: nat, n: nat, sz: nat) {
    var items, items' := Items(s, id, c), Items(s', id, c);
    && i <= |items| && sz <= |items|
    && |items'| == Max(n, sz) && |items| <= |items'|
    && (forall j | 0 <= j < |items'| :: items'[j] == SlotAt(cfg, items, s.next, i, n, j))
    && s'.next == s.next + (if Keeps(cfg) then |items'| - |items| else n - i)
  }

  /** Elements from i on can be read back. */
  ghost predicate FilledHolds(cfg: Config, base: State, s': State, items: seq<Cell>, t: TypeName, v: Value, i: nat)
    requires v.Vec? && |v.elems| <= |items|
  {
    forall j | i <= j < |v.elems| :: items[j].Link? && RowHolds(cfg.schema, base, s', t, items[j].key, v.elems[j])
  }

  function Touched(cfg: Config, s: State, s': State, id: RowId, c: nat, t: TypeName, i: nat, sz: nat): set<Name>
    requires sz <= |Items(s, id, c)|
  {
    {NameOf(cfg.schema, s, id)} + ItemNames(cfg, t, Items(s, id, c), i, sz) + NewNames(t, s.next, s'.next)
  }

  /** Elements from i on have been assigned. */
  ghost predicate Filled(cfg: Config, base: State, s: State, s': State, id: RowId, c: nat, t: TypeName, v: Value,
                         i: nat, sz: nat)
    requires v.Vec? && i <= |v.elems| && sz <= |Items(s, id, c)|
  {
    && FilledItems(cfg, s, s', id, c, i, |v.elems|, sz)
    && s'.rows.Keys == s.rows.Keys + NewRows(t, s.next, s'.next)
    && Frame(cfg.schema, s, s', Touched(cfg, s, s', id, c, t, i, sz))
    && FilledHolds(cfg, base, s', Items(s', id, c), t, v, i)
  }

  /** Where the next element goes. */
  function NextSlot(cfg: Config, s: State, id: RowId, c: nat, i: nat, sz: nat): Cell {
    if Keeps(cfg) && i < sz && i < |Items(s, id, c)| then Items(s, id, c)[i] else Link(s.next)
  }

  lemma {:induction false} FillFrom(cfg: Config, base: State, m: set<Name>, s: State, id: RowId, c: nat, t: TypeName,
                                    v: Value, i: nat, sz: nat)
    requires Filling(cfg, s, id, c, t, v) && i <= |v.elems| && |Items(s, id, c)| == Max(i, sz)
    requires Keeps(cfg) ==> DistinctItems(Items(s, id, c)[..sz])
    requires Frame(cfg.schema, base, s, m) && m !! ItemNames(cfg, t, Items(s, id, c), i, sz)
    ensures var st := AssignFrom(cfg, s, id, c, LinkElem(t), v, i, sz);
            st.r.Ok? ==> Filled(cfg, base, s, st.s, id, c, t, v, i, sz)
    decreases |v.elems| - i
  {
    hide AssignOne, Frame, Filled, RowHolds, FlatDict, Ready, Writable;
    if i < |v.elems| {
      var a := AssignOne(cfg, s, id, c, LinkElem(t), v, i, sz);
      if a.r.Ok? {
        var x := NextSlot(cfg, s, id, c, i, sz);
        FillOne(cfg, base, m, s, id, c, t, v, i, sz);
        FillMoves(cfg, base, m, s, a.s, id, c, t, v, i, sz, x);
        var hit := {NameOf(cfg.schema, s, id), Anon(RowId(t, x.key))};
        FillFrom(cfg, base, m + hit, a.s, id, c, t, v, i + 1, sz);
        var st := AssignFrom(cfg, a.s, id, c, LinkElem(t), v, i + 1, sz);
        if st.r.Ok? {
          FillJoin(cfg, base, s, a.s, st.s, id, c, t, v, i, sz, x);
        }
      }
    } else {
      FillDone(cfg, base, s, id, c, t, v, sz);
    }
  }

  lemma FillDone(cfg: Config, base: State, s: State, id: RowId, c: nat, t: TypeName, v: Value, sz: nat)
    requires v.Vec? && |Items(s, id, c)| == Max(|v.elems|, sz)
    ensures Filled(cfg, base, s, s, id, c, t, v, |v.elems|, sz)
  {
    assert NewRows(t, s.next, s.next) == {};
    FrameRefl(cfg.schema, s, Touched(cfg, s, s, id, c, t, |v.elems|, sz));
  }

  lemma FillOne(cfg: Config, base: State, m: set<Name>, s: State, id: RowId, c: nat, t: TypeName,
                v: Value, i: nat, sz: nat)
    requires Filling(cfg, s, id, c, t, v) && i < |v.elems| && |Items(s, id, c)| == Max(i, sz)
    requires Frame(cfg.schema, base, s, m) && m !! ItemNames(cfg, t, Items(s, id, c), i, sz)
    ensures var a := AssignOne(cfg, s, id, c, LinkElem(t), v, i, sz);
            a.r.Ok? ==> FilledOne(cfg, base, s, a.s, id, c, t, v, i, sz, NextSlot(cfg, s, id, c, i, sz))
  {
    hide AssignOne, WellFormed, Unique, FlatDict, Frame, RowHolds;
    if Keeps(cfg) && i < sz {
      ListedOk(cfg, s, id, c, t, v, i);
      assert Anon(RowId(t, Items(s, id, c)[i].key)) in ItemNames(cfg, t, Items(s, id, c), i, sz);
      FillInPlace(cfg, base, m, s, id, c, t, v, i, sz);
    } else {
      FillNew(cfg, base, m, s, id, c, t, v, i, sz);
    }
  }

  lemma FillMoves(cfg: Config, base: State, m: set<Name>, s: State, s1: State, id: RowId, c: nat, t: TypeName, v: Value,
                  i: nat, sz: nat, x: Cell)
    requires Filling(cfg, s, id, c, t, v) && |Items(s, id, c)| == Max(i, sz)
    requires Keeps(cfg) ==> DistinctItems(Items(s, id, c)[..sz])
    requires Frame(cfg.schema, base, s, m) && m !! ItemNames(cfg, t, Items(s, id, c), i, sz)
    requires FilledOne(cfg, base, s, s1, id, c, t, v, i, sz, x) && x == NextSlot(cfg, s, id, c, i, sz)
    ensures |Items(s1, id, c)| == Max(i + 1, sz)
    ensures Keeps(cfg) ==> DistinctItems(Items(s1, id, c)[..sz])
    ensures Frame(cfg.schema, base, s1, m + {NameOf(cfg.schema, s, id), Anon(RowId(t, x.key))})
    ensures (m + {NameOf(cfg.schema, s, id), Anon(RowId(t, x.key))}) !! ItemNames(cfg, t, Items(s1, id, c), i + 1, sz)
  {
    FrameTrans(cfg.schema, base, s, s1, m, {NameOf(cfg.schema, s, id), Anon(RowId(t, x.key))});
    LaterItems(cfg, base, s, s1, id, c, t, v, i, sz, x);
  }

  /** The objects still to be overwritten are none of the ones written so far. */
  lemma LaterItems(cfg: Config, base: State, s: State, s1: State, id: RowId, c: nat, t: TypeName, v: Value,
                   i: nat, sz: nat, x: Cell)
    requires Filling(cfg, s, id, c, t, v) && |Items(s, id, c)| == Max(i, sz)
    requires Keeps(cfg) ==> DistinctItems(Items(s, id, c)[..sz])
    requires FilledOne(cfg, base, s, s1, id, c, t, v, i, sz, x) && x == NextSlot(cfg, s, id, c, i, sz)
    ensures |Items(s1, id, c)| == Max(i + 1, sz)
    ensures Keeps(cfg) ==> Items(s1, id, c)[..sz] == Items(s, id, c)[..sz]
    ensures ItemNames(cfg, t, Items(s1, id, c), i + 1, sz) <= ItemNames(cfg, t, Items(s, id, c), i, sz)
    ensures ItemNames(cfg, t, Items(s1, id, c), i + 1, sz) !! {NameOf(cfg.schema, s, id), Anon(RowId(t, x.key))}
  {
    if Keeps(cfg) {
      assert Items(s1, id, c)[..sz] == Items(s, id, c)[..sz];
      forall j | i + 1 <= j < sz
        ensures Items(s1, id, c)[j] == Items(s, id, c)[j] && Items(s, id, c)[j] != x
        ensures Items(s, id, c)[j].Link? && RowId(t, Items(s, id, c)[j].key) != id
      {
        ListedOk(cfg, s, id, c, t, v, j);
        assert Items(s, id, c)[..sz][j] != Items(s, id, c)[..sz][i];
      }
    }
  }

  lemma FillJoin(cfg: Config, base: State, s: State, s1: State, s2: State, id: RowId, c: nat, t: TypeName, v: Value,
                 i: nat, sz: nat, x: Cell)
    requires Filling(cfg, s, id, c, t, v) && i < |v.elems| && |Items(s, id, c)| == Max(i, sz)
    requires Keeps(cfg) ==> DistinctItems(Items(s, id, c)[..sz])
    requires FilledOne(cfg, base, s, s1, id, c, t, v, i, sz, x) && x == NextSlot(cfg, s, id, c, i, sz)
    requires sz <= |Items(s1, id, c)| && Filled(cfg, base, s1, s2, id, c, t, v, i + 1, sz)
    ensures Filled(cfg, base, s, s2, id, c, t, v, i, sz)
  {
    hide Frame, RowHolds, FlatDict, Ready, Writable;
    FillJoinItems(cfg, s, s1, s2, id, c, |v.elems|, i, sz, x);
    if i < sz {
      ListedOk(cfg, s, id, c, t, v, i);
    }
    FillJoinRows(s, s1, s2, t, x, Keeps(cfg) && i < sz);
    FillJoinFrame(cfg, base, s, s1, s2, id, c, t, v, i, sz, x);
    FillJoinHolds(cfg, base, s, s1, s2, id, c, t, v, i, sz, x);
  }

  lemma FillJoinItems(cfg: Config, s: State, s1: State, s2: State, id: RowId, c: nat, n: nat, i: nat, sz: nat, x: Cell)
    requires i < n && |Items(s, id, c)| == Max(i, sz) && x == NextSlot(cfg, s, id, c, i, sz)
    requires Items(s1, id, c) == if i < sz then Items(s, id, c)[i := x] else Items(s, id, c) + [x]
    requires s1.next == s.next + NewCount(cfg, i, sz)
    requires FilledItems(cfg, s1, s2, id, c, i + 1, n, sz)
    ensures FilledItems(cfg, s, s2, id, c, i, n, sz) && Items(s2, id, c)[i] == x
  {
  }

  lemma FillJoinFrame(cfg: Config, base: State, s: State, s1: State, s2: State, id: RowId, c: nat, t: TypeName,
                      v: Value, i: nat, sz: nat, x: Cell)
    requires Filling(cfg, s, id, c, t, v) && i < |v.elems| && |Items(s, id, c)| == Max(i, sz)
    requires Keeps(cfg) ==> DistinctItems(Items(s, id, c)[..sz])
    requires FilledOne(cfg, base, s, s1, id, c, t, v, i, sz, x) && x == NextSlot(cfg, s, id, c, i, sz)
    requires sz <= |Items(s1, id, c)| && Filled(cfg, base, s1, s2, id, c, t, v, i + 1, sz)
    ensures Frame(cfg.schema, s, s2, Touched(cfg, s, s2, id, c, t, i, sz))
  {
    hide WellFormed, Unique, FlatDict, RowHolds, FilledHolds;
    LaterItems(cfg, base, s, s1, id, c, t, v, i, sz, x);
    var m1 := {NameOf(cfg.schema, s, id), Anon(RowId(t, x.key))};
    var m2 := Touched(cfg, s1, s2, id, c, t, i + 1, sz);
    FrameTrans(cfg.schema, s, s1, s2, m1, m2);
    var m := Touched(cfg, s, s2, id, c, t, i, sz);
    if i < sz {
      ListedOk(cfg, s, id, c, t, v, i);
    }
    assert Anon(RowId(t, x.key)) in m;
    FrameMono(cfg.schema, s, s2, m1 + m2, m);
  }

  lemma FillJoinHolds(cfg: Config, base: State, s: State, s1: State, s2: State, id: RowId, c: nat, t: TypeName,
                      v: Value, i: nat, sz: nat, x: Cell)
    requires Filling(cfg, s, id, c, t, v) && i < |v.elems| && |Items(s, id, c)| == Max(i, sz)
    requires Keeps(cfg) ==> DistinctItems(Items(s, id, c)[..sz])
    requires FilledOne(cfg, base, s, s1, id, c, t, v, i, sz, x) && x == NextSlot(cfg, s, id, c, i, sz)
    requires sz <= |Items(s1, id, c)| && Filled(cfg, base, s1, s2, id, c, t, v, i + 1, sz)
    ensures RowHolds(cfg.schema, base, s2, t, x.key, v.elems[i])
  {
    hide Ready, HoldsFrom, Touched, FlatDict, WellFormed;
    var m2 := Touched(cfg, s1, s2, id, c, t, i + 1, sz);
    assert v.elems[i] in v.elems;
    FlatDictNames(cfg.schema, t, v.elems[i], 0);
    NotTouched(cfg, base, s, s1, s2, id, c, t, v, i, sz, x);
    RowKept(cfg.schema, s1, s2, m2, RowId(t, x.key));
    HoldsFromStable(cfg.schema, base, s1, s2, m2, t, x.key, v.elems[i], 0);
  }

  /** The object just written is none of those written later. */
  lemma NotTouched(cfg: Config, base: State, s: State, s1: State, s2: State, id: RowId, c: nat, t: TypeName, v: Value,
                   i: nat, sz: nat, x: Cell)
    requires Filling(cfg, s, id, c, t, v) && |Items(s, id, c)| == Max(i, sz)
    requires Keeps(cfg) ==> DistinctItems(Items(s, id, c)[..sz])
    requires FilledOne(cfg, base, s, s1, id, c, t, v, i, sz, x) && x == NextSlot(cfg, s, id, c, i, sz)
    requires sz <= |Items(s1, id, c)|
    ensures RowId(t, x.key) in s1.rows
    ensures NameOf(cfg.schema, s1, RowId(t, x.key)) !in Touched(cfg, s1, s2, id, c, t, i + 1, sz)
  {
    hide Frame, Unique, FlatDict, RowHolds;
    LaterItems(cfg, base, s, s1, id, c, t, v, i, sz, x);
    if i < sz {
      ListedOk(cfg, s, id, c, t, v, i);
    }
    assert x.key < s1.next;
  }

  lemma FillJoinRows(s: State, s1: State, s2: State, t: TypeName, x: Cell, inPlace: bool)
    requires x.Link? && s1.rows.Keys == s.rows.Keys + {RowId(t, x.key)}
    requires if inPlace then s1.next == s.next && RowId(t, x.key) in s.rows
             else s1.next == s.next + 1 && x.key == s.next
    requires s2.rows.Keys == s1.rows.Keys + NewRows(t, s1.next, s2.next) && s1.next <= s2.next
    ensures s2.rows.Keys == s.rows.Keys + NewRows(t, s.next, s2.next)
  {
  }

  // ---- Main results -----------------------------------------------------------------------------

  /** Assigning n flat dictionaries to a list of sz distinct keyless objects, none of which owns the list, where
      the context passes the current keys on: if it succeeds the list has length n, the object at each of the
      first min(n, sz) positions is the one that was there, exactly max(0, n - sz) rows are new, and every object
      reads back its dictionary.
   */
  lemma AssignReusesObjects(cfg: Config, s: State, id: RowId, c: nat, t: TypeName, v: Value)
    requires Filling(cfg, s, id, c, t, v) && Keeps(cfg)
    requires DistinctItems(Items(s, id, c))
    ensures var st := AssignList(cfg, s, id, c, LinkElem(t), v);
            var items, items' := Items(s, id, c), Items(st.s, id, c);
            var sz, n := |items|, |v.elems|;
            st.r.Ok? ==>
              && |items'| == n
              && (forall j | 0 <= j < n :: items'[j] == if j < sz then items[j] else Link(s.next + j - sz))
              && st.s.next == s.next + (if n > sz then n - sz else 0)
              && st.s.rows.Keys == s.rows.Keys + NewRows(t, s.next, st.s.next)
              && FilledHolds(cfg, s, st.s, items', t, v, 0)
  {
    hide Frame, Filling, AssignFrom, Trim;
    var sz := |Items(s, id, c)|;
    assert Items(s, id, c)[..sz] == Items(s, id, c);
    ListFilled(cfg, s, id, c, t, v);
  }

  /** Where nothing is passed on, or nothing is overwritten, the same assignment creates exactly n rows and every
      slot is new, also where the list had objects.
   */
  lemma AssignCreatesObjects(cfg: Config, s: State, id: RowId, c: nat, t: TypeName, v: Value)
    requires Filling(cfg, s, id, c, t, v) && !Keeps(cfg)
    ensures var st := AssignList(cfg, s, id, c, LinkElem(t), v);
            var items' := Items(st.s, id, c);
            var n := |v.elems|;
            st.r.Ok? ==>
              && |items'| == n
              && (forall j | 0 <= j < n :: items'[j] == Link(s.next + j))
              && st.s.next == s.next + n
              && st.s.rows.Keys == s.rows.Keys + NewRows(t, s.next, st.s.next)
              && (forall j | 0 <= j < n :: items'[j] !in Items(s, id, c))
              && FilledHolds(cfg, s, st.s, items', t, v, 0)
  {
    hide Frame, AssignFrom, Trim;
    ListFilled(cfg, s, id, c, t, v);
    forall x | x in Items(s, id, c)
      ensures x.Link? && x.key < s.next
    {
      var i :| 0 <= i < |Items(s, id, c)| && Items(s, id, c)[i] == x;
      ListedOk(cfg, s, id, c, t, v, i);
    }
  }

  /** Both at once: the loop starts from the list as it is, or emptied, and what is too long is cut off. */
  lemma ListFilled(cfg: Config, s: State, id: RowId, c: nat, t: TypeName, v: Value)
    requires Filling(cfg, s, id, c, t, v)
    requires Keeps(cfg) ==> DistinctItems(Items(s, id, c)[..|Items(s, id, c)|])
    ensures var st := AssignList(cfg, s, id, c, LinkElem(t), v);
            var items, items' := Items(Prepared(cfg, s, id, c), id, c), Items(st.s, id, c);
            st.r.Ok? ==>
              && |items'| == |v.elems|
              && (forall j | 0 <= j < |items'| :: items'[j] == SlotAt(cfg, items, s.next, 0, |v.elems|, j))
              && st.s.next == s.next + (if Keeps(cfg) then Max(|v.elems|, |items|) - |items| else |v.elems|)
              && st.s.rows.Keys == s.rows.Keys + NewRows(t, s.next, st.s.next)
              && FilledHolds(cfg, s, st.s, items', t, v, 0)
  {
    hide AssignFrom, Trim, Frame, FilledHolds, ItemNames, Unique, WellFormed;
    var s1 := Prepared(cfg, s, id, c);
    var sz := Reusable(cfg, s, id, c);
    FillStart(cfg, s, id, c, t, v);
    var l := AssignFrom(cfg, s1, id, c, LinkElem(t), v, 0, sz);
    if l.r.Ok? {
      FillFrom(cfg, s, {NameOf(cfg.schema, s, id)}, s1, id, c, t, v, 0, sz);
      AssignFromSafe(cfg, s1, id, c, LinkElem(t), v, 0, sz);
      FillTrim(cfg, s, s1, l.s, id, c, t, v, sz);
    }
  }

  lemma FillStart(cfg: Config, s: State, id: RowId, c: nat, t: TypeName, v: Value)
    requires Filling(cfg, s, id, c, t, v)
    ensures var s1 := Prepared(cfg, s, id, c);
            var sz := Reusable(cfg, s, id, c);
            && Filling(cfg, s1, id, c, t, v)
            && |Items(s1, id, c)| == sz
            && (Keeps(cfg) ==> s1 == s && sz == |Items(s, id, c)|)
            && s1.next == s.next && s1.rows.Keys == s.rows.Keys
            && Frame(cfg.schema, s, s1, {NameOf(cfg.schema, s, id)})
            && {NameOf(cfg.schema, s, id)} !! ItemNames(cfg, t, Items(s1, id, c), 0, sz)
  {
    hide WellFormed, Unique, Frame;
    PreparedFrame(cfg, s, id, c, LinkElem(t));
    assert {NameOf(cfg.schema, s, id)} + {} == {NameOf(cfg.schema, s, id)};
    assert Prepared(cfg, s, id, c) == s || Items(Prepared(cfg, s, id, c), id, c) == [];
    forall j | 0 <= j < |Items(s, id, c)|
      ensures Items(s, id, c)[j].Link? && Anon(RowId(t, Items(s, id, c)[j].key)) != NameOf(cfg.schema, s, id)
    {
      ListedOk(cfg, s, id, c, t, v, j);
    }
  }

  lemma FillTrim(cfg: Config, base: State, s: State, s1: State, id: RowId, c: nat, t: TypeName, v: Value, sz: nat)
    requires Filling(cfg, s, id, c, t, v) && sz == |Items(s, id, c)|
    requires Ready(cfg, s1) && Writable(cfg, s1, id, c, Many(LinkElem(t)))
    requires FilledItems(cfg, s, s1, id, c, 0, |v.elems|, sz)
    requires FilledHolds(cfg, base, s1, Items(s1, id, c), t, v, 0)
    ensures var st := Trim(s1, id, c, |v.elems|, sz);
            && st.s.rows.Keys == s1.rows.Keys && st.s.next == s1.next
            && Items(st.s, id, c) == Items(s1, id, c)[..|v.elems|]
            && FilledHolds(cfg, base, st.s, Items(st.s, id, c), t, v, 0)
  {
    var n := |v.elems|;
    var items1 := Items(s1, id, c);
    ListCell(cfg, s1, id, c, LinkElem(t));
    TrimItems(s1, id, c, n, sz);
    TrimCreatesNone(s1, id, c, n, sz);
    TrimFrame(cfg, s1, id, c, LinkElem(t), n, sz);
    var s2 := Trim(s1, id, c, n, sz).s;
    assert Items(s2, id, c) == items1[..n];
    forall j | 0 <= j < n
      ensures RowHolds(cfg.schema, base, s2, t, items1[j].key, v.elems[j])
    {
      TrimmedHolds(cfg, base, s, s1, s2, id, c, t, v, sz, j);
    }
  }

  lemma TrimmedHolds(cfg: Config, base: State, s: State, s1: State, s2: State, id: RowId, c: nat, t: TypeName, v: Value,
                     sz: nat, j: nat)
    requires Filling(cfg, s, id, c, t, v) && sz == |Items(s, id, c)| && j < |v.elems|
    requires Ready(cfg, s1) && Writable(cfg, s1, id, c, Many(LinkElem(t)))
    requires FilledItems(cfg, s, s1, id, c, 0, |v.elems|, sz)
    requires FilledHolds(cfg, base, s1, Items(s1, id, c), t, v, 0)
    requires Frame(cfg.schema, s1, s2, {NameOf(cfg.schema, s1, id)})
    ensures RowHolds(cfg.schema, base, s2, t, Items(s1, id, c)[j].key, v.elems[j])
  {
    hide Unique;
    var x := Items(s1, id, c)[j];
    assert v.elems[j] in v.elems;
    FlatDictNames(cfg.schema, t, v.elems[j], 0);
    assert RowId(t, x.key) != id by {
      if j < sz {
        ListedOk(cfg, s, id, c, t, v, j);
      }
    }
    assert x in Items(s1, id, c) && CellOk(s1.rows.Keys, Many(LinkElem(t)), Get(s1, id, c));
    RowKept(cfg.schema, s1, s2, {NameOf(cfg.schema, s1, id)}, RowId(t, x.key));
    HoldsFromStable(cfg.schema, base, s1, s2, {NameOf(cfg.schema, s1, id)}, t, x.key, v.elems[j], 0);
  }
}
