/** The create policies agree: on a tree of distinct keyed objects UpdateModified does what UpdateAll does,
    and so does ForceCreate when none of the keys exists yet.
 */
module UpsertPolicies {
  import opened Store
  import opened Upsert
  import opened UpsertSafety
  import opened UpsertFrame
  import opened UpsertReadback
  import opened UpsertForced

  /** Same rows, and the same cells outside x. */
  ghost predicate Agree(s1: State, s2: State, x: set<Loc>) {
    && s1.rows.Keys == s2.rows.Keys
    && s1.next == s2.next
    && forall id, c: nat | Loc(id, c) !in x :: Get(s1, id, c) == Get(s2, id, c)
  }

  /** The excepted cells belong to rows of other names, and are not key cells. */
  ghost predicate Apart(sch: Schema, s: State, x: set<Loc>, names: set<Name>) {
    forall l | l in x ::
      && l.id in s.rows && NameOf(sch, s, l.id) !in names
      && (HasKey(sch, l.id.t) ==> sch[l.id.t].pk.value != l.c)
  }

  /** ForceCreate needs the names to be new. */
  ghost predicate Permits(cfg: Config, s: State, names: set<Name>) {
    cfg.policy.ForceCreate? ==> forall id | id in s.rows :: NameOf(cfg.schema, s, id) !in names
  }

  lemma PermitsStep(cfg: Config, s: State, s': State, m: set<Name>, names: set<Name>)
    requires Frame(cfg.schema, s, s', m) && m !! names && Permits(cfg, s, names)
    ensures Permits(cfg, s', names)
  {
    if cfg.policy.ForceCreate? {
      forall id | id in s'.rows
        ensures NameOf(cfg.schema, s', id) !in names
      {
        if id in s.rows {
          assert NameOf(cfg.schema, s', id) == NameOf(cfg.schema, s, id);
        }
      }
    }
  }

  lemma ApartStep(sch: Schema, s: State, s': State, m: set<Name>, x: set<Loc>, names: set<Name>, names': set<Name>)
    requires Frame(sch, s, s', m) && Apart(sch, s, x, names) && names' <= names
    ensures Apart(sch, s', x, names')
  {
  }

  /** Two runs side by side. */
  ghost predicate Paired(cfg1: Config, cfg2: Config, s1: State, s2: State, x: set<Loc>, names: set<Name>) {
    && cfg1.schema == cfg2.schema
    && Ready(cfg1, s1) && Ready(cfg2, s2)
    && Agree(s1, s2, x)
    && Apart(cfg1.schema, s1, x, names)
    && Permits(cfg1, s1, names) && Permits(cfg2, s2, names)
  }

  lemma AgreeName(sch: Schema, s1: State, s2: State, x: set<Loc>, names: set<Name>, id: RowId)
    requires Agree(s1, s2, x) && Apart(sch, s1, x, names)
    ensures NameOf(sch, s1, id) == NameOf(sch, s2, id)
  {
  }

  lemma PairedStep(cfg1: Config, cfg2: Config, s1: State, s2: State, s1': State, s2': State, x: set<Loc>,
                   names: set<Name>, m: set<Name>, names': set<Name>)
    requires Paired(cfg1, cfg2, s1, s2, x, names)
    requires Ready(cfg1, s1') && Ready(cfg2, s2') && Agree(s1', s2', x)
    requires Frame(cfg1.schema, s1, s1', m) && Frame(cfg2.schema, s2, s2', m)
    requires m !! names' && names' <= names
    ensures Paired(cfg1, cfg2, s1', s2', x, names')
  {
    ApartStep(cfg1.schema, s1, s1', m, x, names, names');
    PermitsStep(cfg1, s1, s1', m, names');
    PermitsStep(cfg2, s2, s2', m, names');
  }

  lemma {:induction false} FindAgree(s1: State, s2: State, t: TypeName, c: nat, pk: Cell, k: ObjKey)
    requires s1.rows.Keys == s2.rows.Keys && s1.next == s2.next
    requires forall id | id in s1.rows && id.t == t :: Get(s1, id, c) == Get(s2, id, c)
    ensures FindFrom(s1, t, c, pk, k) == FindFrom(s2, t, c, pk, k)
    decreases s1.next - k
  {
    if k < s1.next {
      FindAgree(s1, s2, t, c, pk, k + 1);
    }
  }

  lemma OpenAgree(cfg1: Config, cfg2: Config, s1: State, s2: State, x: set<Loc>, t: TypeName, v: Value,
                  current1: Option<ObjKey>, current2: Option<ObjKey>)
    requires HasKey(cfg1.schema, t) && v.Dict?
    requires Paired(cfg1, cfg2, s1, s2, x, Names(cfg1.schema, t, v))
    ensures var o1, o2 := Open(cfg1, s1, t, v, current1), Open(cfg2, s2, t, v, current2);
            && o1.r == o2.r
            && Agree(o1.s, o2.s, x)
  {
    hide WellFormed, Unique;
    var c := cfg1.schema[t].pk.value;
    var pk := PrimaryCell(cfg1.schema, t, v);
    if pk.Ok? {
      forall id | id in s1.rows && id.t == t
        ensures Get(s1, id, c) == Get(s2, id, c)
      {
        AgreeName(cfg1.schema, s1, s2, x, Names(cfg1.schema, t, v), id);
      }
      FindAgree(s1, s2, t, c, pk.value, 0);
      var key := FindRow(cfg1.schema, s1, t, pk.value);
      if key.Some? {
        assert NameOf(cfg1.schema, s1, RowId(t, key.value)) in OwnName(cfg1.schema, t, v);
        assert NameOf(cfg1.schema, s2, RowId(t, key.value)) in OwnName(cfg1.schema, t, v);
      }
    }
  }

  lemma {:induction false} CreateAgree(cfg1: Config, cfg2: Config, s1: State, s2: State, x: set<Loc>,
                                       t: TypeName, v: Value, current1: Option<ObjKey>, current2: Option<ObjKey>)
    requires HasKey(cfg1.schema, t) && Distinct(cfg1.schema, t, v) && !v.Managed?
    requires Paired(cfg1, cfg2, s1, s2, x, Names(cfg1.schema, t, v))
    ensures var st1, st2 := Create(cfg1, s1, t, v, current1), Create(cfg2, s2, t, v, current2);
            && st1.r == st2.r
            && (st1.r.Ok? ==> Agree(st1.s, st2.s, x))
    decreases Nest(v), v, 3, 0
  {
    hide Populate;
    if v.Dict? {
      var o1, o2 := Open(cfg1, s1, t, v, current1), Open(cfg2, s2, t, v, current2);
      OpenAgree(cfg1, cfg2, s1, s2, x, t, v, current1, current2);
      if o1.r.Ok? {
        OpenSafe(cfg1, s1, t, v, current1);
        OpenSafe(cfg2, s2, t, v, current2);
        OpenFrame(cfg1, s1, t, v, current1);
        OpenFrame(cfg2, s2, t, v, current2);
        PairedStep(cfg1, cfg2, s1, s2, o1.s, o2.s, x, Names(cfg1.schema, t, v), OwnName(cfg1.schema, t, v),
                   NamesFrom(cfg1.schema, t, v, 0));
        ApartStep(cfg1.schema, s1, o1.s, OwnName(cfg1.schema, t, v), x, Names(cfg1.schema, t, v),
                  OwnName(cfg1.schema, t, v));
        PopulateAgree(cfg1, cfg2, o1.s, o2.s, x, t, o1.r.value, v, 0);
      }
    }
  }

  lemma {:induction false} PopulateAgree(cfg1: Config, cfg2: Config, s1: State, s2: State, x: set<Loc>,
                                         t: TypeName, row: Opened, v: Value, i: nat)
    requires HasKey(cfg1.schema, t) && v.Dict? && i <= |cfg1.schema[t].props|
    requires Paired(cfg1, cfg2, s1, s2, x, NamesFrom(cfg1.schema, t, v, i))
    requires RowId(t, row.key) in s1.rows && row.skipPrimary
    requires OwnName(cfg1.schema, t, v) == {NameOf(cfg1.schema, s1, RowId(t, row.key))}
    requires Apart(cfg1.schema, s1, x, OwnName(cfg1.schema, t, v))
    requires DistinctFrom(cfg1.schema, t, v, i)
    requires OwnName(cfg1.schema, t, v) !! NamesFrom(cfg1.schema, t, v, i)
    ensures var st1, st2 := Populate(cfg1, s1, t, row, v, i), Populate(cfg2, s2, t, row, v, i);
            && st1.r == st2.r
            && (st1.r.Ok? ==> Agree(st1.s, st2.s, x))
    decreases Nest(v), v, 2, |cfg1.schema[t].props| - i
  {
    hide PopulateOne;
    if i < |cfg1.schema[t].props| {
      var own := OwnName(cfg1.schema, t, v);
      var p1, p2 := PopulateOne(cfg1, s1, t, row, v, i), PopulateOne(cfg2, s2, t, row, v, i);
      AgreeName(cfg1.schema, s1, s2, x, own, RowId(t, row.key));
      PairedMono(cfg1, cfg2, s1, s2, x, NamesFrom(cfg1.schema, t, v, i), PropNames(cfg1.schema, t, v, i));
      PopulateOneAgree(cfg1, cfg2, s1, s2, x, t, row, v, i);
      if p1.r.Ok? {
        PopulateOnePaired(cfg1, cfg2, s1, s2, x, t, row, v, i);
        PopulateAgree(cfg1, cfg2, p1.s, p2.s, x, t, row, v, i + 1);
      }
    }
  }

  /** The two runs stay side by side over one step. */
  lemma PopulateOnePaired(cfg1: Config, cfg2: Config, s1: State, s2: State, x: set<Loc>,
                          t: TypeName, row: Opened, v: Value, i: nat)
    requires HasKey(cfg1.schema, t) && v.Dict? && i < |cfg1.schema[t].props|
    requires Paired(cfg1, cfg2, s1, s2, x, NamesFrom(cfg1.schema, t, v, i))
    requires RowId(t, row.key) in s1.rows && row.skipPrimary
    requires {NameOf(cfg1.schema, s1, RowId(t, row.key))} == OwnName(cfg1.schema, t, v)
    requires NameOf(cfg2.schema, s2, RowId(t, row.key)) == NameOf(cfg1.schema, s1, RowId(t, row.key))
    requires Apart(cfg1.schema, s1, x, OwnName(cfg1.schema, t, v))
    requires DistinctFrom(cfg1.schema, t, v, i)
    requires OwnName(cfg1.schema, t, v) !! NamesFrom(cfg1.schema, t, v, i)
    requires Agree(PopulateOne(cfg1, s1, t, row, v, i).s, PopulateOne(cfg2, s2, t, row, v, i).s, x)
    ensures var p1, p2 := PopulateOne(cfg1, s1, t, row, v, i).s, PopulateOne(cfg2, s2, t, row, v, i).s;
            && Paired(cfg1, cfg2, p1, p2, x, NamesFrom(cfg1.schema, t, v, i + 1))
            && Apart(cfg1.schema, p1, x, OwnName(cfg1.schema, t, v))
            && RowId(t, row.key) in p1.rows
            && NameOf(cfg1.schema, p1, RowId(t, row.key)) == NameOf(cfg1.schema, s1, RowId(t, row.key))
  {
    var own := OwnName(cfg1.schema, t, v);
    var m := own + PropNames(cfg1.schema, t, v, i);
    var p1, p2 := PopulateOne(cfg1, s1, t, row, v, i).s, PopulateOne(cfg2, s2, t, row, v, i).s;
    PopulateOneSafe(cfg1, s1, t, row, v, i);
    PopulateOneSafe(cfg2, s2, t, row, v, i);
    PopulateOneFrame(cfg1, s1, t, row, v, i);
    PopulateOneFrame(cfg2, s2, t, row, v, i);
    PairedStep(cfg1, cfg2, s1, s2, p1, p2, x, NamesFrom(cfg1.schema, t, v, i), m, NamesFrom(cfg1.schema, t, v, i + 1));
    ApartStep(cfg1.schema, s1, p1, m, x, own, own);
  }

  lemma PairedMono(cfg1: Config, cfg2: Config, s1: State, s2: State, x: set<Loc>, names: set<Name>, names': set<Name>)
    requires Paired(cfg1, cfg2, s1, s2, x, names) && names' <= names
    ensures Paired(cfg1, cfg2, s1, s2, x, names')
  {
  }

  lemma {:induction false} PopulateOneAgree(cfg1: Config, cfg2: Config, s1: State, s2: State, x: set<Loc>,
                                            t: TypeName, row: Opened, v: Value, i: nat)
    requires HasKey(cfg1.schema, t) && v.Dict? && i < |cfg1.schema[t].props|
    requires Paired(cfg1, cfg2, s1, s2, x, PropNames(cfg1.schema, t, v, i))
    requires RowId(t, row.key) in s1.rows && row.skipPrimary
    requires OwnName(cfg1.schema, t, v) == {NameOf(cfg1.schema, s1, RowId(t, row.key))}
    requires Apart(cfg1.schema, s1, x, OwnName(cfg1.schema, t, v))
    requires DistinctProp(cfg1.schema, t, v, i)
    requires OwnName(cfg1.schema, t, v) !! PropNames(cfg1.schema, t, v, i)
    ensures var st1, st2 := PopulateOne(cfg1, s1, t, row, v, i), PopulateOne(cfg2, s2, t, row, v, i);
            && st1.r == st2.r
            && (st1.r.Ok? ==> Agree(st1.s, st2.s, x))
    decreases Nest(v), v, 1, 0
  {
    hide SetPropertyImpl;
    var prop := cfg1.schema[t].props[i];
    var id := RowId(t, row.key);
    if cfg1.schema[t].pk == Some(i) {
    } else if prop.name in v.fields {
      SetPropertyAgree(cfg1, cfg2, s1, s2, x, id, i, prop.kind, v.fields[prop.name], false);
    } else if prop.default.Some? {
      SetPropertyAgree(cfg1, cfg2, s1, s2, x, id, i, prop.kind, prop.default.value, true);
    }
  }

  lemma {:induction false} SetPropertyAgree(cfg1: Config, cfg2: Config, s1: State, s2: State, x: set<Loc>,
                                            id: RowId, c: nat, kind: Kind, v: Value, isDefault: bool)
    requires Writable(cfg1, s1, id, c, kind) && TargetsIn(kind, cfg1.schema.Keys)
    requires Paired(cfg1, cfg2, s1, s2, x, ValueNames(cfg1.schema, kind, v))
    requires Apart(cfg1.schema, s1, x, {NameOf(cfg1.schema, s1, id)})
    requires DistinctValue(cfg1.schema, kind, v)
    requires NameOf(cfg1.schema, s1, id) !in ValueNames(cfg1.schema, kind, v)
    ensures var st1, st2 := SetPropertyImpl(cfg1, s1, id, c, kind, v, isDefault),
                            SetPropertyImpl(cfg2, s2, id, c, kind, v, isDefault);
            && st1.r == st2.r
            && (st1.r.Ok? ==> Agree(st1.s, st2.s, x))
    decreases Nest(v), v, 6, 0
  {
    hide AssignList, Unbox, Frame, WellFormed, Unique, Permits;
    assert forall c': nat :: Loc(id, c') !in x;
    if IsNullable(kind) && v.Null? {
    } else if kind.Many? {
      AssignListAgree(cfg1, cfg2, s1, s2, x, id, c, kind.elem, v);
    } else if kind.One? {
      UnboxSideBySide(cfg1, cfg2, s1, s2, x, id, c, kind.elem, v);
      var before := Get(s1, id, c);
      var u1, u2 := Unbox(cfg1, s1, kind.elem, v, before, false), Unbox(cfg2, s2, kind.elem, v, before, false);
      if u1.r.Ok? {
        SetOneAgree(cfg1, cfg2, u1.s, u2.s, x, id, c, before, u1.r.value);
      }
    }
  }

  /** Unboxing the value of a cell gives the same in both runs and leaves the cell's row alone. */
  lemma {:induction false} UnboxSideBySide(cfg1: Config, cfg2: Config, s1: State, s2: State, x: set<Loc>,
                                           id: RowId, c: nat, elem: Elem, v: Value)
    requires Writable(cfg1, s1, id, c, One(elem, false)) || Writable(cfg1, s1, id, c, One(elem, true))
    requires elem.LinkElem? ==> elem.target in cfg1.schema
    requires Paired(cfg1, cfg2, s1, s2, x, SlotNames(cfg1.schema, elem, v))
    requires Apart(cfg1.schema, s1, x, {NameOf(cfg1.schema, s1, id)})
    requires DistinctSlot(cfg1.schema, elem, v)
    requires NameOf(cfg1.schema, s1, id) !in SlotNames(cfg1.schema, elem, v)
    ensures var u1 := Unbox(cfg1, s1, elem, v, Get(s1, id, c), false);
            var u2 := Unbox(cfg2, s2, elem, v, Get(s1, id, c), false);
            && Get(s2, id, c) == Get(s1, id, c)
            && u1.r == u2.r
            && (u1.r.Ok? ==>
                  && Agree(u1.s, u2.s, x) && Get(u1.s, id, c) == Get(u2.s, id, c) == Get(s1, id, c)
                  && id in u1.s.rows && c < |u1.s.rows[id]| && c < |u2.s.rows[id]|)
    decreases Nest(v), v, 5, 0
  {
    var before := Get(s1, id, c);
    assert Loc(id, c) !in x;
    AgreeName(cfg1.schema, s1, s2, x, {NameOf(cfg1.schema, s1, id)}, id);
    UnboxAgree(cfg1, cfg2, s1, s2, x, elem, v, before, before, false);
    UnboxKeeps(cfg1, s1, id, elem, v, before, false);
    UnboxKeeps(cfg2, s2, id, elem, v, before, false);
  }

  /** Writing a cell, or leaving it because it has the value already, comes to the same. */
  lemma SetOneAgree(cfg1: Config, cfg2: Config, s1: State, s2: State, x: set<Loc>, id: RowId, c: nat, before: Cell,
                    y: Cell)
    requires Agree(s1, s2, x) && Get(s1, id, c) == Get(s2, id, c) == before
    requires id in s1.rows && c < |s1.rows[id]| && c < |s2.rows[id]|
    ensures var s1' := if !cfg1.policy.UpdateModified? || Differs(before, y) then Assign(s1, id, c, y) else s1;
            var s2' := if !cfg2.policy.UpdateModified? || Differs(before, y) then Assign(s2, id, c, y) else s2;
            Agree(s1', s2', x)
  {
  }

  /** A nested object leaves the row that will refer to it as it was. */
  lemma UnboxKeeps(cfg: Config, s: State, id: RowId, elem: Elem, v: Value, current: Cell, inList: bool)
    requires Ready(cfg, s) && (elem.LinkElem? ==> elem.target in cfg.schema)
    requires id in s.rows && DistinctSlot(cfg.schema, elem, v)
    requires NameOf(cfg.schema, s, id) !in SlotNames(cfg.schema, elem, v)
    ensures var u := Unbox(cfg, s, elem, v, current, inList);
            && Ready(cfg, u.s)
            && id in u.s.rows && u.s.rows[id] == s.rows[id]
            && NameOf(cfg.schema, u.s, id) == NameOf(cfg.schema, s, id)
            && Frame(cfg.schema, s, u.s, SlotNames(cfg.schema, elem, v))
  {
    UnboxSafe(cfg, s, elem, v, current, inList);
    UnboxFrame(cfg, s, elem, v, current, inList);
  }

  lemma {:induction false} UnboxAgree(cfg1: Config, cfg2: Config, s1: State, s2: State, x: set<Loc>,
                                      elem: Elem, v: Value, current1: Cell, current2: Cell, inList: bool)
    requires elem.LinkElem? ==> elem.target in cfg1.schema
    requires Paired(cfg1, cfg2, s1, s2, x, SlotNames(cfg1.schema, elem, v))
    requires DistinctSlot(cfg1.schema, elem, v)
    ensures var st1, st2 := Unbox(cfg1, s1, elem, v, current1, inList), Unbox(cfg2, s2, elem, v, current2, inList);
            && st1.r == st2.r
            && (st1.r.Ok? ==> Agree(st1.s, st2.s, x))
    decreases Nest(v), v, 4, 0
  {
    hide Create;
    if elem.LinkElem? && !v.Managed? {
      CreateAgree(cfg1, cfg2, s1, s2, x, elem.target, v, Passed(cfg1, current1),
                  Passed(cfg2, current2));
    }
  }

  // ---- Lists ------------------------------------------------------------------------------------

  /** Only the list cell and nothing else may differ after a step that keeps all other rows. */
  lemma AgreeExcept(cfg1: Config, cfg2: Config, s1: State, s2: State, s1': State, s2': State, x: set<Loc>, id: RowId,
                    c: nat)
    requires cfg1.schema == cfg2.schema && id in s1.rows && id in s2.rows
    requires Unique(cfg1.schema, s1) && Unique(cfg2.schema, s2)
    requires Agree(s1, s2, x) && NameOf(cfg1.schema, s1, id) == NameOf(cfg2.schema, s2, id)
    requires Frame(cfg1.schema, s1, s1', {NameOf(cfg1.schema, s1, id)}) && OthersKept(s1, s1', id, c)
    requires Frame(cfg2.schema, s2, s2', {NameOf(cfg2.schema, s2, id)}) && OthersKept(s2, s2', id, c)
    requires s1'.rows.Keys == s1.rows.Keys && s1'.next == s1.next
    requires s2'.rows.Keys == s2.rows.Keys && s2'.next == s2.next
    ensures Agree(s1', s2', x + {Loc(id, c)})
    ensures Get(s1', id, c) == Get(s2', id, c) ==> Agree(s1', s2', x)
  {
    forall id', c': nat | Loc(id', c') !in x && (id', c') != (id, c)
      ensures Get(s1', id', c') == Get(s2', id', c')
    {
      if id' != id {
        if id' in s1.rows {
          assert s1'.rows[id'] == s1.rows[id'];
          assert s2'.rows[id'] == s2.rows[id'];
        }
      }
    }
  }

  lemma {:induction false} AssignListAgree(cfg1: Config, cfg2: Config, s1: State, s2: State, x: set<Loc>,
                                           id: RowId, c: nat, elem: Elem, v: Value)
    requires Writable(cfg1, s1, id, c, Many(elem)) && (elem.LinkElem? ==> elem.target in cfg1.schema)
    requires Paired(cfg1, cfg2, s1, s2, x, ValueNames(cfg1.schema, Many(elem), v))
    requires Apart(cfg1.schema, s1, x, {NameOf(cfg1.schema, s1, id)})
    requires DistinctValue(cfg1.schema, Many(elem), v)
    requires NameOf(cfg1.schema, s1, id) !in ValueNames(cfg1.schema, Many(elem), v)
    ensures var st1, st2 := AssignList(cfg1, s1, id, c, elem, v), AssignList(cfg2, s2, id, c, elem, v);
            && st1.r == st2.r
            && (st1.r.Ok? ==> Agree(st1.s, st2.s, x))
    decreases Nest(v), v, 5, if v.Vec? then |v.elems| + 1 else 0
  {
    hide AssignFrom, Trim, WellFormed, Unique, Permits;
    AgreeName(cfg1.schema, s1, s2, x, {NameOf(cfg1.schema, s1, id)}, id);
    if v.Null? {
      ClearFrame(cfg1, s1, id, c, elem);
      ClearFrame(cfg2, s2, id, c, elem);
      AgreeExcept(cfg1, cfg2, s1, s2, Clear(s1, id, c), Clear(s2, id, c), x, id, c);
    } else if v.Vec? {
      var p1, p2 := Prepared(cfg1, s1, id, c), Prepared(cfg2, s2, id, c);
      var sz1, sz2 := Reusable(cfg1, s1, id, c), Reusable(cfg2, s2, id, c);
      PrepareAgree(cfg1, cfg2, s1, s2, x, id, c, elem, RestNames(cfg1.schema, elem, v, 0));
      AssignFromAgree(cfg1, cfg2, p1, p2, x + {Loc(id, c)}, id, c, elem, v, 0, sz1, sz2);
      var l1, l2 := AssignFrom(cfg1, p1, id, c, elem, v, 0, sz1), AssignFrom(cfg2, p2, id, c, elem, v, 0, sz2);
      if l1.r.Ok? {
        ListTail(cfg1, p1, id, c, elem, v, sz1);
        ListTail(cfg2, p2, id, c, elem, v, sz2);
        TrimAgree(l1.s, l2.s, x, id, c, |v.elems|, sz1, sz2);
      }
    }
  }

  lemma PrepareAgree(cfg1: Config, cfg2: Config, s1: State, s2: State, x: set<Loc>, id: RowId, c: nat, elem: Elem,
                     names: set<Name>)
    requires Writable(cfg1, s1, id, c, Many(elem))
    requires Paired(cfg1, cfg2, s1, s2, x, names)
    requires NameOf(cfg1.schema, s1, id) == NameOf(cfg2.schema, s2, id) && NameOf(cfg1.schema, s1, id) !in names
    ensures var p1, p2 := Prepared(cfg1, s1, id, c), Prepared(cfg2, s2, id, c);
            && Paired(cfg1, cfg2, p1, p2, x + {Loc(id, c)}, names)
            && Writable(cfg1, p1, id, c, Many(elem)) && Writable(cfg2, p2, id, c, Many(elem))
            && |Items(p1, id, c)| == Reusable(cfg1, s1, id, c)
            && |Items(p2, id, c)| == Reusable(cfg2, s2, id, c)
  {
    hide WellFormed, Unique;
    var own := {NameOf(cfg1.schema, s1, id)};
    var p1, p2 := Prepared(cfg1, s1, id, c), Prepared(cfg2, s2, id, c);
    PreparedFrame(cfg1, s1, id, c, elem);
    PreparedFrame(cfg2, s2, id, c, elem);
    AgreeExcept(cfg1, cfg2, s1, s2, p1, p2, x, id, c);
    assert Apart(cfg1.schema, s1, x + {Loc(id, c)}, names);
    PairedStep(cfg1, cfg2, s1, s2, p1, p2, x + {Loc(id, c)}, names, own, names);
  }

  /** After the loop the list cell is there to be trimmed. */
  lemma ListTail(cfg: Config, s: State, id: RowId, c: nat, elem: Elem, v: Value, sz: nat)
    requires WellFormed(cfg.schema, s) && Writable(cfg, s, id, c, Many(elem))
    requires (elem.LinkElem? ==> elem.target in cfg.schema) && v.Vec?
    ensures var s' := AssignFrom(cfg, s, id, c, elem, v, 0, sz).s;
            id in s'.rows && c < |s'.rows[id]| && Get(s', id, c).List?
  {
    AssignFromSafe(cfg, s, id, c, elem, v, 0, sz);
    var s' := AssignFrom(cfg, s, id, c, elem, v, 0, sz).s;
    assert CellOk(s'.rows.Keys, Many(elem), s'.rows[id][c]);
  }

  lemma TrimAgree(s1: State, s2: State, x: set<Loc>, id: RowId, c: nat, n: nat, sz1: nat, sz2: nat)
    requires Agree(s1, s2, x + {Loc(id, c)})
    requires id in s1.rows && c < |s1.rows[id]| && Get(s1, id, c).List?
    requires id in s2.rows && c < |s2.rows[id]| && Get(s2, id, c).List?
    requires |Items(s1, id, c)| == Max(n, sz1) && |Items(s2, id, c)| == Max(n, sz2)
    requires Items(s1, id, c)[..n] == Items(s2, id, c)[..n]
    ensures var t1, t2 := Trim(s1, id, c, n, sz1), Trim(s2, id, c, n, sz2);
            t1.r == Ok(()) && t2.r == Ok(()) && Agree(t1.s, t2.s, x)
  {
    TrimItems(s1, id, c, n, sz1);
    TrimItems(s2, id, c, n, sz2);
    TrimOnly(s1, id, c, n, sz1);
    TrimOnly(s2, id, c, n, sz2);
    assert Items(Trim(s1, id, c, n, sz1).s, id, c) == Items(s1, id, c)[..n];
    assert Items(Trim(s2, id, c, n, sz2).s, id, c) == Items(s2, id, c)[..n];
  }

  lemma {:induction false} TrimOnly(s: State, id: RowId, c: nat, index: nat, sz: nat)
    ensures var s' := Trim(s, id, c, index, sz).s;
            && s'.rows.Keys == s.rows.Keys && s'.next == s.next
            && forall id', c': nat | (id', c') != (id, c) :: Get(s', id', c') == Get(s, id', c')
    decreases sz
  {
    if index < sz <= |Items(s, id, c)| {
      var s1 := RemoveSlot(s, id, c, sz - 1);
      assert s1.rows.Keys == s.rows.Keys;
      TrimOnly(s1, id, c, index, sz - 1);
    }
  }

  lemma {:induction false} AssignFromAgree(cfg1: Config, cfg2: Config, s1: State, s2: State, x: set<Loc>,
                                           id: RowId, c: nat, elem: Elem, v: Value, i: nat, sz1: nat, sz2: nat)
    requires Writable(cfg1, s1, id, c, Many(elem)) && Loc(id, c) in x
    requires elem.LinkElem? ==> elem.target in cfg1.schema
    requires v.Vec? && i <= |v.elems|
    requires Paired(cfg1, cfg2, s1, s2, x, RestNames(cfg1.schema, elem, v, i))
    requires DistinctRest(cfg1.schema, elem, v, i)
    requires |Items(s1, id, c)| == Max(i, sz1) && |Items(s2, id, c)| == Max(i, sz2)
    requires Items(s1, id, c)[..i] == Items(s2, id, c)[..i]
    ensures var st1, st2 := AssignFrom(cfg1, s1, id, c, elem, v, i, sz1), AssignFrom(cfg2, s2, id, c, elem, v, i, sz2);
            && st1.r == st2.r
            && (st1.r.Ok? ==>
                  && Agree(st1.s, st2.s, x)
                  && |Items(st1.s, id, c)| == Max(|v.elems|, sz1) && |Items(st2.s, id, c)| == Max(|v.elems|, sz2)
                  && Items(st1.s, id, c)[..|v.elems|] == Items(st2.s, id, c)[..|v.elems|])
    decreases Nest(v), v, 5, |v.elems| - i
  {
    hide AssignOne, WellFormed, Unique;
    if i < |v.elems| {
      var names, rest := RestNames(cfg1.schema, elem, v, i), RestNames(cfg1.schema, elem, v, i + 1);
      var mine := SlotNames(cfg1.schema, elem, v.elems[i]);
      var own := {NameOf(cfg1.schema, s1, id)};
      PairedMono(cfg1, cfg2, s1, s2, x, names, mine);
      AgreeName(cfg1.schema, s1, s2, x, names, id);
      AssignOneAgree(cfg1, cfg2, s1, s2, x, id, c, elem, v, i, sz1, sz2);
      var a1, a2 := AssignOne(cfg1, s1, id, c, elem, v, i, sz1), AssignOne(cfg2, s2, id, c, elem, v, i, sz2);
      if a1.r.Ok? {
        AssignOneSafe(cfg1, s1, id, c, elem, v, i, sz1);
        AssignOneSafe(cfg2, s2, id, c, elem, v, i, sz2);
        AssignOneFrame(cfg1, s1, id, c, elem, v, i, sz1);
        AssignOneFrame(cfg2, s2, id, c, elem, v, i, sz2);
        PairedStep(cfg1, cfg2, s1, s2, a1.s, a2.s, x, names, own + mine, rest);
        AssignFromAgree(cfg1, cfg2, a1.s, a2.s, x, id, c, elem, v, i + 1, sz1, sz2);
      }
    }
  }

  lemma {:induction false} AssignOneAgree(cfg1: Config, cfg2: Config, s1: State, s2: State, x: set<Loc>,
                                          id: RowId, c: nat, elem: Elem, v: Value, i: nat, sz1: nat, sz2: nat)
    requires Writable(cfg1, s1, id, c, Many(elem)) && Loc(id, c) in x
    requires elem.LinkElem? ==> elem.target in cfg1.schema
    requires v.Vec? && i < |v.elems|
    requires Paired(cfg1, cfg2, s1, s2, x, SlotNames(cfg1.schema, elem, v.elems[i]))
    requires DistinctSlot(cfg1.schema, elem, v.elems[i])
    requires |Items(s1, id, c)| == Max(i, sz1) && |Items(s2, id, c)| == Max(i, sz2)
    requires Items(s1, id, c)[..i] == Items(s2, id, c)[..i]
    ensures var st1, st2 := AssignOne(cfg1, s1, id, c, elem, v, i, sz1), AssignOne(cfg2, s2, id, c, elem, v, i, sz2);
            && st1.r == st2.r
            && (st1.r.Ok? ==>
                  && Agree(st1.s, st2.s, x)
                  && |Items(st1.s, id, c)| == Max(i + 1, sz1) && |Items(st2.s, id, c)| == Max(i + 1, sz2)
                  && Items(st1.s, id, c)[..i + 1] == Items(st2.s, id, c)[..i + 1])
    decreases Nest(v), v, 4, 1
  {
    hide Unbox, PlaceItem;
    var before1 := if i < sz1 then Items(s1, id, c)[i] else NullCell;
    var before2 := if i < sz2 then Items(s2, id, c)[i] else NullCell;
    UnboxItemAgree(cfg1, cfg2, s1, s2, x, id, elem, v.elems[i], before1, before2);
    var u1, u2 := Unbox(cfg1, s1, elem, v.elems[i], before1, true), Unbox(cfg2, s2, elem, v.elems[i], before2, true);
    if u1.r.Ok? {
      PlaceAgree(u1.s, u2.s, x, id, c, before1, before2, u1.r.value, i, sz1, sz2);
    }
  }

  lemma {:induction false} UnboxItemAgree(cfg1: Config, cfg2: Config, s1: State, s2: State, x: set<Loc>, id: RowId,
                                          elem: Elem, v: Value, before1: Cell, before2: Cell)
    requires id in s1.rows && (elem.LinkElem? ==> elem.target in cfg1.schema)
    requires Paired(cfg1, cfg2, s1, s2, x, SlotNames(cfg1.schema, elem, v))
    requires NameOf(cfg1.schema, s1, id) !in SlotNames(cfg1.schema, elem, v)
    requires DistinctSlot(cfg1.schema, elem, v)
    ensures var u1, u2 := Unbox(cfg1, s1, elem, v, before1, true), Unbox(cfg2, s2, elem, v, before2, true);
            && u1.r == u2.r
            && (u1.r.Ok? ==> Agree(u1.s, u2.s, x))
            && id in u1.s.rows && u1.s.rows[id] == s1.rows[id]
            && id in u2.s.rows && u2.s.rows[id] == s2.rows[id]
    decreases Nest(v), v, 4, 2
  {
    AgreeName(cfg1.schema, s1, s2, x, SlotNames(cfg1.schema, elem, v), id);
    UnboxAgree(cfg1, cfg2, s1, s2, x, elem, v, before1, before2, true);
    UnboxKeeps(cfg1, s1, id, elem, v, before1, true);
    UnboxKeeps(cfg2, s2, id, elem, v, before2, true);
  }

  lemma PlaceAgree(s1: State, s2: State, x: set<Loc>, id: RowId, c: nat, before1: Cell, before2: Cell, y: Cell,
                   i: nat, sz1: nat, sz2: nat)
    requires Agree(s1, s2, x) && Loc(id, c) in x
    requires id in s1.rows && c < |s1.rows[id]| && c < |s2.rows[id]|
    requires |Items(s1, id, c)| == Max(i, sz1) && (i < sz1 ==> before1 == Items(s1, id, c)[i])
    requires |Items(s2, id, c)| == Max(i, sz2) && (i < sz2 ==> before2 == Items(s2, id, c)[i])
    requires Items(s1, id, c)[..i] == Items(s2, id, c)[..i]
    ensures var p1, p2 := PlaceItem(s1, id, c, before1, y, i, sz1), PlaceItem(s2, id, c, before2, y, i, sz2);
            && p1.r == Ok(()) && p2.r == Ok(())
            && Agree(p1.s, p2.s, x)
            && |Items(p1.s, id, c)| == Max(i + 1, sz1) && |Items(p2.s, id, c)| == Max(i + 1, sz2)
            && Items(p1.s, id, c)[..i + 1] == Items(p2.s, id, c)[..i + 1]
  {
    PlaceOnly(s1, id, c, before1, y, i, sz1);
    PlaceOnly(s2, id, c, before2, y, i, sz2);
    var p1, p2 := PlaceItem(s1, id, c, before1, y, i, sz1).s, PlaceItem(s2, id, c, before2, y, i, sz2).s;
    assert Items(p1, id, c)[..i + 1] == Items(s1, id, c)[..i] + [y];
    assert Items(p2, id, c)[..i + 1] == Items(s2, id, c)[..i] + [y];
  }

  lemma PlaceOnly(s: State, id: RowId, c: nat, before: Cell, x: Cell, i: nat, sz: nat)
    requires id in s.rows && c < |s.rows[id]|
    requires |Items(s, id, c)| == Max(i, sz) && (i < sz ==> before == Items(s, id, c)[i])
    ensures var st := PlaceItem(s, id, c, before, x, i, sz);
            && st.r == Ok(())
            && st.s.rows.Keys == s.rows.Keys && st.s.next == s.next
            && Items(st.s, id, c) == (if i < sz then Items(s, id, c)[i := x] else Items(s, id, c) + [x])
            && forall id', c': nat | (id', c') != (id, c) :: Get(st.s, id', c') == Get(s, id', c')
  {
    assert PlaceItem(s, id, c, before, x, i, sz).s.rows.Keys == s.rows.Keys;
  }

  // ---- Main results -----------------------------------------------------------------------------

  lemma AgreeEqual(sch: Schema, s1: State, s2: State)
    requires Agree(s1, s2, {}) && WellFormed(sch, s1) && WellFormed(sch, s2)
    ensures s1.rows == s2.rows && s1.next == s2.next
  {
    forall id | id in s1.rows
      ensures s1.rows[id] == s2.rows[id]
    {
      assert RowOk(s1.rows.Keys, sch[id.t], s1.rows[id]) && RowOk(s2.rows.Keys, sch[id.t], s2.rows[id]);
      forall c | 0 <= c < |s1.rows[id]|
        ensures s1.rows[id][c] == s2.rows[id][c]
      {
        assert Get(s1, id, c) == Get(s2, id, c);
      }
    }
  }

  /** Two policies that both may be used give the same result, and after a success the same store. */
  lemma PoliciesAgree(cfg1: Config, cfg2: Config, s: State, t: TypeName, v: Value)
    requires cfg1.schema == cfg2.schema && Ready(cfg1, s) && Ready(cfg2, s)
    requires HasKey(cfg1.schema, t) && v.Dict? && Distinct(cfg1.schema, t, v)
    requires Permits(cfg1, s, Names(cfg1.schema, t, v)) && Permits(cfg2, s, Names(cfg1.schema, t, v))
    ensures var st1, st2 := Create(cfg1, s, t, v, None), Create(cfg2, s, t, v, None);
            && st1.r == st2.r
            && (st1.r.Ok? ==> st1.s.rows == st2.s.rows && st1.s.next == st2.s.next)
  {
    var st1, st2 := Create(cfg1, s, t, v, None), Create(cfg2, s, t, v, None);
    CreateAgree(cfg1, cfg2, s, s, {}, t, v, None, None);
    CreateSafe(cfg1, s, t, v, None);
    CreateSafe(cfg2, s, t, v, None);
    if st1.r.Ok? {
      AgreeEqual(cfg1.schema, st1.s, st2.s);
    }
  }

  /** UpdateModified refines UpdateAll. */
  lemma ModifiedRefinesAll(modified: Config, all: Config, s: State, t: TypeName, v: Value)
    requires modified.policy.UpdateModified? && all.policy.UpdateAll? && modified.schema == all.schema
    requires Ready(modified, s) && Ready(all, s)
    requires HasKey(all.schema, t) && v.Dict? && Distinct(all.schema, t, v)
    ensures var st1, st2 := Create(modified, s, t, v, None), Create(all, s, t, v, None);
            && st1.r == st2.r
            && (st1.r.Ok? ==> st1.s.rows == st2.s.rows && st1.s.next == st2.s.next)
  {
    PoliciesAgree(modified, all, s, t, v);
  }

  /** ForceCreate succeeds exactly when UpdateAll does and no key of the tree exists; then both end alike. */
  lemma ForceCreateExactly(force: Config, all: Config, s: State, t: TypeName, v: Value)
    requires force.policy.ForceCreate? && all.policy.UpdateAll? && force.schema == all.schema
    requires Ready(force, s) && Ready(all, s)
    requires HasKey(all.schema, t) && v.Dict? && Distinct(all.schema, t, v)
    ensures var st1, st2 := Create(force, s, t, v, None), Create(all, s, t, v, None);
            && (st1.r.Ok? <==> st2.r.Ok? && Absent(all.schema, s, Names(all.schema, t, v)))
            && (st1.r.Ok? ==> st1.r == st2.r && st1.s.rows == st2.s.rows && st1.s.next == st2.s.next)
  {
    if Create(force, s, t, v, None).r.Ok? {
      CreateSafe(force, s, t, v, None);
      ForcedFindsNone(force, s, t, v, None);
    }
    if Absent(all.schema, s, Names(all.schema, t, v)) {
      PoliciesAgree(force, all, s, t, v);
    }
  }
}
