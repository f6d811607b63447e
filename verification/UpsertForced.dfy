/** A forced create, inside or outside a migration: it never touches a row that is there, and if it succeeds it
    has made a new row for every name of its value.
 */
module UpsertForced {
  import opened Store
  import opened Upsert
  import opened UpsertSafety
  import opened UpsertFrame

  // ---- Rows that are there stay as they are -----------------------------------------------------

  ghost predicate KeepsRows(s: State, s': State, own: set<RowId>) {
    forall id | id in s.rows && id !in own :: id in s'.rows && s'.rows[id] == s.rows[id]
  }

  /** Only cell c of row id may have changed, beside rows that are new. */
  ghost predicate Adds(s: State, s': State, id: RowId, c: nat) {
    && KeepsRows(s, s', {id})
    && id in s'.rows
    && OthersKept(s, s', id, c)
  }

  lemma KeepsTrans(s: State, s1: State, s2: State, own: set<RowId>)
    requires KeepsRows(s, s1, own) && KeepsRows(s1, s2, own)
    ensures KeepsRows(s, s2, own)
  {
  }

  lemma AddsTrans(s: State, s1: State, s2: State, id: RowId, c: nat)
    requires Adds(s, s1, id, c) && Adds(s1, s2, id, c)
    ensures Adds(s, s2, id, c)
  {
    KeepsTrans(s, s1, s2, {id});
    forall c': nat | c' != c
      ensures Get(s2, id, c') == Get(s, id, c')
    {
      assert Get(s1, id, c') == Get(s, id, c');
    }
  }

  lemma AddsPut(s: State, s1: State, id: RowId, c: nat, x: Cell, w: Write)
    requires id in s.rows && KeepsRows(s, s1, {})
    ensures Adds(s, s1, id, c) && Adds(s, Put(s1, id, c, x, w), id, c)
  {
  }

  /** A forced create whatever its outcome. */
  lemma {:induction false} CreateAdds(cfg: Config, s: State, t: TypeName, v: Value, current: Option<ObjKey>)
    requires WellFormed(cfg.schema, s) && cfg.policy.ForceCreate? && t in cfg.schema
    ensures KeepsRows(s, Create(cfg, s, t, v, current).s, {})
    decreases Nest(v), v, 3, 0
  {
    hide Open, Populate;
    var o := Open(cfg, s, t, v, current);
    OpenAdds(cfg, s, t, v, current);
    if o.r.Ok? {
      OpenSafe(cfg, s, t, v, current);
      PopulateAdds(cfg, o.s, t, o.r.value, v, 0);
    }
  }

  lemma OpenAdds(cfg: Config, s: State, t: TypeName, v: Value, current: Option<ObjKey>)
    requires WellFormed(cfg.schema, s) && cfg.policy.ForceCreate? && t in cfg.schema
    ensures var o := Open(cfg, s, t, v, current);
            KeepsRows(s, o.s, {}) && (o.r.Ok? ==> RowId(t, o.r.value.key) !in s.rows)
  {
    hide FindRow, PrimaryCell, RowOk;
  }

  lemma {:induction false} PopulateAdds(cfg: Config, s: State, t: TypeName, row: Opened, v: Value, i: nat)
    requires WellFormed(cfg.schema, s) && cfg.policy.ForceCreate? && t in cfg.schema && i <= |cfg.schema[t].props|
    requires RowId(t, row.key) in s.rows && (!Locked(cfg) || row.skipPrimary)
    ensures KeepsRows(s, Populate(cfg, s, t, row, v, i).s, {RowId(t, row.key)})
    decreases Nest(v), v, 2, |cfg.schema[t].props| - i
  {
    hide PopulateOne;
    if i < |cfg.schema[t].props| {
      PopulateOneAdds(cfg, s, t, row, v, i);
      PopulateOneSafe(cfg, s, t, row, v, i);
      var p := PopulateOne(cfg, s, t, row, v, i);
      if p.r.Ok? {
        PopulateAdds(cfg, p.s, t, row, v, i + 1);
        KeepsTrans(s, p.s, Populate(cfg, p.s, t, row, v, i + 1).s, {RowId(t, row.key)});
      }
    }
  }

  lemma {:induction false} PopulateOneAdds(cfg: Config, s: State, t: TypeName, row: Opened, v: Value, i: nat)
    requires WellFormed(cfg.schema, s) && cfg.policy.ForceCreate? && t in cfg.schema && i < |cfg.schema[t].props|
    requires RowId(t, row.key) in s.rows && (!Locked(cfg) || row.skipPrimary)
    ensures Adds(s, PopulateOne(cfg, s, t, row, v, i).s, RowId(t, row.key), i)
    decreases Nest(v), v, 1, 0
  {
    hide SetPropertyImpl;
    var prop := cfg.schema[t].props[i];
    if !(row.skipPrimary && cfg.schema[t].pk == Some(i)) && v.Dict? {
      if prop.name in v.fields {
        SetPropertyAdds(cfg, s, RowId(t, row.key), i, prop.kind, v.fields[prop.name], false);
      } else if prop.default.Some? {
        SetPropertyAdds(cfg, s, RowId(t, row.key), i, prop.kind, prop.default.value, true);
      }
    }
  }

  lemma {:induction false} SetPropertyAdds(cfg: Config, s: State, id: RowId, c: nat, kind: Kind, v: Value,
                                           isDefault: bool)
    requires WellFormed(cfg.schema, s) && cfg.policy.ForceCreate?
    requires Writable(cfg, s, id, c, kind) && TargetsIn(kind, cfg.schema.Keys)
    ensures Adds(s, SetPropertyImpl(cfg, s, id, c, kind, v, isDefault).s, id, c)
    decreases Nest(v), v, 6, 0
  {
    hide AssignList, Unbox, WellFormed;
    if kind.Many? {
      AssignListAdds(cfg, s, id, c, kind.elem, v);
    } else if kind.One? {
      AddsPut(s, s, id, c, NullCell, Assigned(Loc(id, c), Get(s, id, c), NullCell));
      var u := Unbox(cfg, s, kind.elem, v, Get(s, id, c), false);
      UnboxAdds(cfg, s, kind.elem, v, Get(s, id, c), false);
      if u.r.Ok? {
        AddsPut(s, u.s, id, c, u.r.value, Assigned(Loc(id, c), Get(u.s, id, c), u.r.value));
      } else {
        AddsPut(s, u.s, id, c, NullCell, Cleared(Loc(id, c)));
      }
    }
  }

  lemma {:induction false} UnboxAdds(cfg: Config, s: State, elem: Elem, v: Value, current: Cell, inList: bool)
    requires WellFormed(cfg.schema, s) && cfg.policy.ForceCreate? && (elem.LinkElem? ==> elem.target in cfg.schema)
    ensures KeepsRows(s, Unbox(cfg, s, elem, v, current, inList).s, {})
    decreases Nest(v), v, 4, 0
  {
    hide Create;
    if elem.LinkElem? && !v.Managed? {
      CreateAdds(cfg, s, elem.target, v, Passed(cfg, current));
    }
  }

  lemma {:induction false} AssignListAdds(cfg: Config, s: State, id: RowId, c: nat, elem: Elem, v: Value)
    requires WellFormed(cfg.schema, s) && cfg.policy.ForceCreate? && Writable(cfg, s, id, c, Many(elem))
    requires elem.LinkElem? ==> elem.target in cfg.schema
    ensures Adds(s, AssignList(cfg, s, id, c, elem, v).s, id, c)
    decreases Nest(v), v, 5, if v.Vec? then |v.elems| + 1 else 0
  {
    hide AssignFrom, WellFormed;
    var s1 := Prepared(cfg, s, id, c);
    ClearSafe(cfg, s, id, c, elem);
    AddsPut(s, s, id, c, List([]), Cleared(Loc(id, c)));
    if v.Vec? {
      AssignFromAdds(cfg, s1, id, c, elem, v, 0);
      AddsTrans(s, s1, AssignFrom(cfg, s1, id, c, elem, v, 0, 0).s, id, c);
    }
  }

  lemma {:induction false} AssignFromAdds(cfg: Config, s: State, id: RowId, c: nat, elem: Elem, v: Value, i: nat)
    requires WellFormed(cfg.schema, s) && cfg.policy.ForceCreate? && Writable(cfg, s, id, c, Many(elem))
    requires elem.LinkElem? ==> elem.target in cfg.schema
    requires v.Vec? && i <= |v.elems|
    ensures Adds(s, AssignFrom(cfg, s, id, c, elem, v, i, 0).s, id, c)
    decreases Nest(v), v, 5, |v.elems| - i
  {
    hide AssignOne, WellFormed;
    if i < |v.elems| {
      var a := AssignOne(cfg, s, id, c, elem, v, i, 0);
      AssignOneAdds(cfg, s, id, c, elem, v, i);
      AssignOneSafe(cfg, s, id, c, elem, v, i, 0);
      if a.r.Ok? {
        AssignFromAdds(cfg, a.s, id, c, elem, v, i + 1);
        AddsTrans(s, a.s, AssignFrom(cfg, a.s, id, c, elem, v, i + 1, 0).s, id, c);
      }
    }
  }

  lemma {:induction false} AssignOneAdds(cfg: Config, s: State, id: RowId, c: nat, elem: Elem, v: Value, i: nat)
    requires WellFormed(cfg.schema, s) && cfg.policy.ForceCreate? && Writable(cfg, s, id, c, Many(elem))
    requires elem.LinkElem? ==> elem.target in cfg.schema
    requires v.Vec? && i < |v.elems|
    ensures Adds(s, AssignOne(cfg, s, id, c, elem, v, i, 0).s, id, c)
    decreases Nest(v), v, 4, 1
  {
    hide Unbox, WellFormed;
    UnboxAdds(cfg, s, elem, v.elems[i], NullCell, true);
    var u := Unbox(cfg, s, elem, v.elems[i], NullCell, true);
    var x := if u.r.Ok? then u.r.value else NullCell;
    AddsPut(s, u.s, id, c, List(Items(u.s, id, c) + [x]), Appended(Loc(id, c), x));
  }

  // ---- Every name gets a new row ----------------------------------------------------------------

  ghost predicate NewRowNamed(sch: Schema, s: State, s': State, n: Name) {
    exists id :: id in s'.rows && id !in s.rows && NameOf(sch, s', id) == n
  }

  ghost predicate AllNamed(sch: Schema, s: State, s': State, names: set<Name>) {
    forall n | n in names :: NewRowNamed(sch, s, s', n)
  }

  /** New rows keep their names over later writes to other rows. */
  lemma NamedTrans(sch: Schema, s: State, s1: State, s2: State, own: RowId, m1: set<Name>, m2: set<Name>)
    requires own in s.rows && s.rows.Keys <= s1.rows.Keys && KeepsRows(s1, s2, {own})
    requires AllNamed(sch, s, s1, m1) && AllNamed(sch, s1, s2, m2)
    ensures AllNamed(sch, s, s2, m1 + m2)
  {
    forall n | n in m1 + m2
      ensures NewRowNamed(sch, s, s2, n)
    {
      if n in m1 {
        assert NewRowNamed(sch, s, s1, n);
        var id :| id in s1.rows && id !in s.rows && NameOf(sch, s1, id) == n;
        assert id != own && s2.rows[id] == s1.rows[id];
        assert NameOf(sch, s2, id) == n;
      } else {
        assert NewRowNamed(sch, s1, s2, n);
        var id :| id in s2.rows && id !in s1.rows && NameOf(sch, s2, id) == n;
        assert id !in s.rows;
      }
    }
  }

  /** The key column holds the key of the value once the loop has passed it. */
  lemma {:induction false} PopulateKey(cfg: Config, s: State, t: TypeName, row: Opened, v: Value, i: nat)
    requires WellFormed(cfg.schema, s) && cfg.policy.ForceCreate? && HasKey(cfg.schema, t)
    requires i <= |cfg.schema[t].props| && RowId(t, row.key) in s.rows && row.created
    requires !Locked(cfg) || row.skipPrimary
    requires v.Dict? && PrimaryCell(cfg.schema, t, v).Ok?
    requires var c := cfg.schema[t].pk.value;
             Get(s, RowId(t, row.key), c) ==
               if i <= c && !row.skipPrimary then Initial(cfg.schema[t].props[c].kind)
               else PrimaryCell(cfg.schema, t, v).value
    ensures var st := Populate(cfg, s, t, row, v, i);
            st.r.Ok? ==>
              Get(st.s, RowId(t, row.key), cfg.schema[t].pk.value) == PrimaryCell(cfg.schema, t, v).value
    decreases |cfg.schema[t].props| - i
  {
    hide PopulateOne;
    if i < |cfg.schema[t].props| {
      var p := PopulateOne(cfg, s, t, row, v, i);
      PopulateOneAdds(cfg, s, t, row, v, i);
      PopulateOneSafe(cfg, s, t, row, v, i);
      if p.r.Ok? {
        if cfg.schema[t].pk == Some(i) {
          KeyIsSet(cfg, s, t, row, v);
        }
        PopulateKey(cfg, p.s, t, row, v, i + 1);
      }
    }
  }

  lemma KeyIsSet(cfg: Config, s: State, t: TypeName, row: Opened, v: Value)
    requires WellFormed(cfg.schema, s) && cfg.policy.ForceCreate? && HasKey(cfg.schema, t)
    requires RowId(t, row.key) in s.rows && row.created
    requires v.Dict? && PrimaryCell(cfg.schema, t, v).Ok?
    ensures var c := cfg.schema[t].pk.value;
            var p := PopulateOne(cfg, s, t, row, v, c);
            var before := if row.skipPrimary then PrimaryCell(cfg.schema, t, v).value
                          else Initial(cfg.schema[t].props[c].kind);
            && p.r.Ok?
            && (Get(s, RowId(t, row.key), c) == before ==>
                  Get(p.s, RowId(t, row.key), c) == PrimaryCell(cfg.schema, t, v).value)
  {
    var c := cfg.schema[t].pk.value;
    var prop := cfg.schema[t].props[c];
    var id := RowId(t, row.key);
    assert PrimaryKind(prop.kind) && c < |s.rows[id]|;
    if !row.skipPrimary {
      if prop.name in v.fields {
        ForcedKeySet(cfg, s, id, c, prop, v.fields[prop.name], false);
        assert PopulateOne(cfg, s, t, row, v, c)
            == SetPropertyImpl(cfg, s, id, c, prop.kind, v.fields[prop.name], false);
      } else if prop.default.Some? {
        ForcedKeySet(cfg, s, id, c, prop, prop.default.value, true);
      }
    }
  }

  lemma ForcedKeySet(cfg: Config, s: State, id: RowId, c: nat, prop: Property, v: Value, isDefault: bool)
    requires cfg.policy.ForceCreate? && id in s.rows && c < |s.rows[id]|
    requires PrimaryKind(prop.kind) && UnboxPrimary(prop, v).Ok?
    ensures var x := UnboxPrimary(prop, v).value;
            && SetPropertyImpl(cfg, s, id, c, prop.kind, v, isDefault) == Step(Assign(s, id, c, x), Ok(()))
            && Get(Assign(s, id, c, x), id, c) == x
            && (RejectsNull(prop.kind) ==> !v.Null?)
  {
  }

  lemma {:induction false} CreateNamed(cfg: Config, s: State, t: TypeName, v: Value, current: Option<ObjKey>)
    requires WellFormed(cfg.schema, s) && cfg.policy.ForceCreate? && t in cfg.schema
    ensures var st := Create(cfg, s, t, v, current);
            st.r.Ok? ==> AllNamed(cfg.schema, s, st.s, Names(cfg.schema, t, v))
    decreases Nest(v), v, 3, 0
  {
    hide Populate;
    var o := Open(cfg, s, t, v, current);
    var st := Create(cfg, s, t, v, current);
    if st.r.Ok? && v.Dict? {
      var own := RowId(t, o.r.value.key);
      OpenSafe(cfg, s, t, v, current);
      PopulateNamed(cfg, o.s, t, o.r.value, v, 0);
      forall n | n in NamesFrom(cfg.schema, t, v, 0)
        ensures NewRowNamed(cfg.schema, s, st.s, n)
      {
        assert NewRowNamed(cfg.schema, o.s, st.s, n);
        var id :| id in st.s.rows && id !in o.s.rows && NameOf(cfg.schema, st.s, id) == n;
        assert id !in s.rows;
      }
      if HasKey(cfg.schema, t) {
        OpenedKey(cfg, s, t, v, current);
        PopulateKey(cfg, o.s, t, o.r.value, v, 0);
        PopulateSafe(cfg, o.s, t, o.r.value, v, 0);
        assert own in st.s.rows && own !in s.rows;
        assert NameOf(cfg.schema, st.s, own) in OwnName(cfg.schema, t, v);
      }
    }
  }

  lemma OpenedKey(cfg: Config, s: State, t: TypeName, v: Value, current: Option<ObjKey>)
    requires WellFormed(cfg.schema, s) && cfg.policy.ForceCreate? && HasKey(cfg.schema, t)
    requires v.Dict? && Open(cfg, s, t, v, current).r.Ok?
    ensures var o := Open(cfg, s, t, v, current);
            var c := cfg.schema[t].pk.value;
            && PrimaryCell(cfg.schema, t, v).Ok? && o.r.value.created
            && RowId(t, o.r.value.key) in o.s.rows && RowId(t, o.r.value.key) !in s.rows
            && Get(o.s, RowId(t, o.r.value.key), c) ==
                 (if o.r.value.skipPrimary then PrimaryCell(cfg.schema, t, v).value
                  else Initial(cfg.schema[t].props[c].kind))
  {
  }

  lemma {:induction false} PopulateNamed(cfg: Config, s: State, t: TypeName, row: Opened, v: Value, i: nat)
    requires WellFormed(cfg.schema, s) && cfg.policy.ForceCreate? && t in cfg.schema && i <= |cfg.schema[t].props|
    requires RowId(t, row.key) in s.rows && (!Locked(cfg) || row.skipPrimary) && row.created && v.Dict?
    ensures var st := Populate(cfg, s, t, row, v, i);
            st.r.Ok? ==> AllNamed(cfg.schema, s, st.s, NamesFrom(cfg.schema, t, v, i))
    decreases Nest(v), v, 2, |cfg.schema[t].props| - i
  {
    hide PopulateOne;
    if i < |cfg.schema[t].props| {
      var p := PopulateOne(cfg, s, t, row, v, i);
      PopulateOneNamed(cfg, s, t, row, v, i);
      PopulateOneSafe(cfg, s, t, row, v, i);
      if p.r.Ok? {
        PopulateNamed(cfg, p.s, t, row, v, i + 1);
        PopulateAdds(cfg, p.s, t, row, v, i + 1);
        var st := Populate(cfg, p.s, t, row, v, i + 1);
        if st.r.Ok? {
          NamedTrans(cfg.schema, s, p.s, st.s, RowId(t, row.key), PropNames(cfg.schema, t, v, i),
                     NamesFrom(cfg.schema, t, v, i + 1));
        }
      }
    }
  }

  lemma {:induction false} PopulateOneNamed(cfg: Config, s: State, t: TypeName, row: Opened, v: Value, i: nat)
    requires WellFormed(cfg.schema, s) && cfg.policy.ForceCreate? && t in cfg.schema && i < |cfg.schema[t].props|
    requires RowId(t, row.key) in s.rows && (!Locked(cfg) || row.skipPrimary) && row.created && v.Dict?
    ensures var p := PopulateOne(cfg, s, t, row, v, i);
            p.r.Ok? ==> AllNamed(cfg.schema, s, p.s, PropNames(cfg.schema, t, v, i))
    decreases Nest(v), v, 1, 0
  {
    hide SetPropertyImpl;
    var prop := cfg.schema[t].props[i];
    var x := Source(v, prop);
    if cfg.schema[t].pk != Some(i) && x.Some? {
      SetPropertyNamed(cfg, s, RowId(t, row.key), i, prop.kind, x.value, prop.name !in v.fields);
    }
  }

  lemma {:induction false} SetPropertyNamed(cfg: Config, s: State, id: RowId, c: nat, kind: Kind, v: Value,
                                            isDefault: bool)
    requires WellFormed(cfg.schema, s) && cfg.policy.ForceCreate?
    requires Writable(cfg, s, id, c, kind) && TargetsIn(kind, cfg.schema.Keys)
    ensures var st := SetPropertyImpl(cfg, s, id, c, kind, v, isDefault);
            st.r.Ok? ==> AllNamed(cfg.schema, s, st.s, ValueNames(cfg.schema, kind, v))
    decreases Nest(v), v, 6, 0
  {
    hide AssignList, Create, WellFormed;
    if kind.Many? {
      AssignListNamed(cfg, s, id, c, kind.elem, v);
    } else if kind.One? && kind.elem.LinkElem? && v.Dict? {
      var u := Unbox(cfg, s, kind.elem, v, Get(s, id, c), false);
      UnboxNamed(cfg, s, id, c, kind.elem, v, Get(s, id, c), false);
      if u.r.Ok? {
        var s' := Assign(u.s, id, c, u.r.value);
        UnboxSafe(cfg, s, kind.elem, v, Get(s, id, c), false);
        NamedTrans(cfg.schema, s, u.s, s', id, SlotNames(cfg.schema, kind.elem, v), {});
        assert SlotNames(cfg.schema, kind.elem, v) + {} == SlotNames(cfg.schema, kind.elem, v);
      }
    }
  }

  lemma {:induction false} UnboxNamed(cfg: Config, s: State, id: RowId, c: nat, elem: Elem, v: Value, current: Cell,
                                      inList: bool)
    requires WellFormed(cfg.schema, s) && cfg.policy.ForceCreate? && (elem.LinkElem? ==> elem.target in cfg.schema)
    ensures var u := Unbox(cfg, s, elem, v, current, inList);
            u.r.Ok? ==> AllNamed(cfg.schema, s, u.s, SlotNames(cfg.schema, elem, v))
    decreases Nest(v), v, 4, 0
  {
    hide Create;
    if elem.LinkElem? && !v.Managed? {
      CreateNamed(cfg, s, elem.target, v, Passed(cfg, current));
    }
  }

  lemma {:induction false} AssignListNamed(cfg: Config, s: State, id: RowId, c: nat, elem: Elem, v: Value)
    requires WellFormed(cfg.schema, s) && cfg.policy.ForceCreate? && Writable(cfg, s, id, c, Many(elem))
    requires elem.LinkElem? ==> elem.target in cfg.schema
    ensures var st := AssignList(cfg, s, id, c, elem, v);
            st.r.Ok? ==> AllNamed(cfg.schema, s, st.s, ValueNames(cfg.schema, Many(elem), v))
    decreases Nest(v), v, 5, if v.Vec? then |v.elems| + 1 else 0
  {
    hide AssignFrom, WellFormed;
    if v.Vec? {
      var s1 := Prepared(cfg, s, id, c);
      ClearSafe(cfg, s, id, c, elem);
      AssignFromNamed(cfg, s1, id, c, elem, v, 0);
      assert s1.rows.Keys == s.rows.Keys;
    }
  }

  lemma {:induction false} AssignFromNamed(cfg: Config, s: State, id: RowId, c: nat, elem: Elem, v: Value, i: nat)
    requires WellFormed(cfg.schema, s) && cfg.policy.ForceCreate? && Writable(cfg, s, id, c, Many(elem))
    requires elem.LinkElem? ==> elem.target in cfg.schema
    requires v.Vec? && i <= |v.elems|
    ensures var st := AssignFrom(cfg, s, id, c, elem, v, i, 0);
            st.r.Ok? ==> AllNamed(cfg.schema, s, st.s, RestNames(cfg.schema, elem, v, i))
    decreases Nest(v), v, 5, |v.elems| - i
  {
    hide AssignOne, WellFormed;
    if i < |v.elems| {
      var a := AssignOne(cfg, s, id, c, elem, v, i, 0);
      AssignOneNamed(cfg, s, id, c, elem, v, i);
      AssignOneSafe(cfg, s, id, c, elem, v, i, 0);
      if a.r.Ok? {
        AssignFromNamed(cfg, a.s, id, c, elem, v, i + 1);
        AssignFromAdds(cfg, a.s, id, c, elem, v, i + 1);
        var st := AssignFrom(cfg, a.s, id, c, elem, v, i + 1, 0);
        if st.r.Ok? {
          NamedTrans(cfg.schema, s, a.s, st.s, id, SlotNames(cfg.schema, elem, v.elems[i]),
                     RestNames(cfg.schema, elem, v, i + 1));
        }
      }
    }
  }

  lemma {:induction false} AssignOneNamed(cfg: Config, s: State, id: RowId, c: nat, elem: Elem, v: Value, i: nat)
    requires WellFormed(cfg.schema, s) && cfg.policy.ForceCreate? && Writable(cfg, s, id, c, Many(elem))
    requires elem.LinkElem? ==> elem.target in cfg.schema
    requires v.Vec? && i < |v.elems|
    ensures var a := AssignOne(cfg, s, id, c, elem, v, i, 0);
            a.r.Ok? ==> AllNamed(cfg.schema, s, a.s, SlotNames(cfg.schema, elem, v.elems[i]))
    decreases Nest(v), v, 4, 1
  {
    hide Unbox, WellFormed;
    var u := Unbox(cfg, s, elem, v.elems[i], NullCell, true);
    UnboxNamed(cfg, s, id, c, elem, v.elems[i], NullCell, true);
    UnboxSafe(cfg, s, elem, v.elems[i], NullCell, true);
    if u.r.Ok? {
      var names := SlotNames(cfg.schema, elem, v.elems[i]);
      NamedTrans(cfg.schema, s, u.s, Append(u.s, id, c, u.r.value), id, names, {});
      assert names + {} == names;
    }
  }

  // ---- Main results -----------------------------------------------------------------------------

  /** No row of the store has one of these names. */
  ghost predicate Absent(sch: Schema, s: State, names: set<Name>) {
    forall id | id in s.rows :: NameOf(sch, s, id) !in names
  }

  /** A forced create, also one that fails and also in a migration, leaves every row as it is. */
  lemma ForcedKeepsRows(cfg: Config, s: State, t: TypeName, v: Value, current: Option<ObjKey>)
    requires WellFormed(cfg.schema, s) && cfg.policy.ForceCreate? && t in cfg.schema
    ensures forall id | id in s.rows ::
              && id in Create(cfg, s, t, v, current).s.rows
              && Create(cfg, s, t, v, current).s.rows[id] == s.rows[id]
  {
    CreateAdds(cfg, s, t, v, current);
  }

  /** If keys are unique after a successful forced create, no row had a name of the value before. */
  lemma ForcedFindsNone(cfg: Config, s: State, t: TypeName, v: Value, current: Option<ObjKey>)
    requires WellFormed(cfg.schema, s) && cfg.policy.ForceCreate? && t in cfg.schema
    requires Create(cfg, s, t, v, current).r.Ok? && Unique(cfg.schema, Create(cfg, s, t, v, current).s)
    ensures Absent(cfg.schema, s, Names(cfg.schema, t, v))
  {
    hide Create, WellFormed;
    var s' := Create(cfg, s, t, v, current).s;
    CreateAdds(cfg, s, t, v, current);
    CreateNamed(cfg, s, t, v, current);
    forall id, n | id in s.rows && n in Names(cfg.schema, t, v)
      ensures NameOf(cfg.schema, s, id) != n
    {
      assert NewRowNamed(cfg.schema, s, s', n);
      var id' :| id' in s'.rows && id' !in s.rows && NameOf(cfg.schema, s', id') == n;
      assert id' != id && NameOf(cfg.schema, s', id) == NameOf(cfg.schema, s, id);
    }
  }
}
