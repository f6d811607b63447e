/** What a migration changes. An update does not depend on it. A forced create in a migration always makes new rows,
    and keeps keys unique exactly if none of its names existed.
 */
module UpsertMigration {
  import opened Store
  import opened Upsert
  import opened UpsertSafety
  import opened UpsertFrame
  import opened UpsertReadback
  import opened UpsertForced
  import opened UpsertSuccess

  // ---- Where the migration flag does not matter -------------------------------------------------

  /** The same call outside a migration. */
  function Still(cfg: Config): Config {
    cfg.(migrating := false)
  }

  /** A forced create finds none of the names, if they are absent at the start. */
  ghost predicate Calm(cfg: Config, s: State, names: set<Name>) {
    Ready(Still(cfg), s) && Absent(cfg.schema, s, names)
  }

  lemma CalmStep(cfg: Config, s: State, s': State, m: set<Name>, names: set<Name>)
    requires Calm(cfg, s, names) && Safe(Still(cfg), s, s') && Frame(cfg.schema, s, s', m) && m !! names
    ensures Calm(cfg, s', names)
  {
    hide WellFormed, Unique;
    forall id | id in s'.rows
      ensures NameOf(cfg.schema, s', id) !in names
    {
      if id in s.rows {
        assert NameOf(cfg.schema, s', id) == NameOf(cfg.schema, s, id);
      }
    }
  }

  lemma CalmPart(cfg: Config, s: State, names: set<Name>, part: set<Name>)
    requires Calm(cfg, s, names) && part <= names
    ensures Calm(cfg, s, part)
  {
  }

  lemma {:induction false} CreateStill(cfg: Config, s: State, t: TypeName, v: Value, current: Option<ObjKey>)
    requires t in cfg.schema
    requires cfg.policy.ForceCreate? ==>
               && HasKey(cfg.schema, t) && Distinct(cfg.schema, t, v) && !v.Managed?
               && Calm(cfg, s, Names(cfg.schema, t, v))
    ensures Create(cfg, s, t, v, current) == Create(Still(cfg), s, t, v, current)
    decreases Nest(v), v, 3, 0
  {
    hide Populate, WellFormed, Unique;
    OpenStill(cfg, s, t, v, current);
    var o := Open(cfg, s, t, v, current);
    if o.r.Ok? {
      if cfg.policy.ForceCreate? {
        OpenSafe(Still(cfg), s, t, v, current);
        OpenFrame(Still(cfg), s, t, v, current);
        CalmPart(cfg, s, Names(cfg.schema, t, v), NamesFrom(cfg.schema, t, v, 0));
        CalmStep(cfg, s, o.s, OwnName(cfg.schema, t, v), NamesFrom(cfg.schema, t, v, 0));
      }
      PopulateStill(cfg, o.s, t, o.r.value, v, 0);
    }
  }

  lemma OpenStill(cfg: Config, s: State, t: TypeName, v: Value, current: Option<ObjKey>)
    requires t in cfg.schema
    requires cfg.policy.ForceCreate? ==> HasKey(cfg.schema, t) && Calm(cfg, s, Names(cfg.schema, t, v))
    ensures Open(cfg, s, t, v, current) == Open(Still(cfg), s, t, v, current)
    ensures cfg.policy.ForceCreate? && Open(cfg, s, t, v, current).r.Ok? ==> v.Dict?
  {
    if cfg.policy.ForceCreate? && PrimaryCell(cfg.schema, t, v).Ok? {
      var pk := PrimaryCell(cfg.schema, t, v).value;
      assert Keyed(t, pk) in Names(cfg.schema, t, v);
      assert forall k: ObjKey | RowId(t, k) in s.rows :: NameOf(cfg.schema, s, RowId(t, k)) != Keyed(t, pk);
    }
  }

  lemma {:induction false} PopulateStill(cfg: Config, s: State, t: TypeName, row: Opened, v: Value, i: nat)
    requires t in cfg.schema && i <= |cfg.schema[t].props|
    requires cfg.policy.ForceCreate? ==>
               && v.Dict? && DistinctFrom(cfg.schema, t, v, i)
               && RowId(t, row.key) in s.rows && row.skipPrimary
               && NameOf(cfg.schema, s, RowId(t, row.key)) !in NamesFrom(cfg.schema, t, v, i)
               && Calm(cfg, s, NamesFrom(cfg.schema, t, v, i))
    ensures Populate(cfg, s, t, row, v, i) == Populate(Still(cfg), s, t, row, v, i)
    decreases Nest(v), v, 2, |cfg.schema[t].props| - i
  {
    hide PopulateOne, WellFormed, Unique;
    if i < |cfg.schema[t].props| {
      if cfg.policy.ForceCreate? {
        CalmPart(cfg, s, NamesFrom(cfg.schema, t, v, i), PropNames(cfg.schema, t, v, i));
      }
      PopulateOneStill(cfg, s, t, row, v, i);
      var p := PopulateOne(cfg, s, t, row, v, i);
      if p.r.Ok? {
        if cfg.policy.ForceCreate? {
          PopulateCalm(cfg, s, t, row, v, i);
        }
        PopulateStill(cfg, p.s, t, row, v, i + 1);
      }
    }
  }

  lemma PopulateCalm(cfg: Config, s: State, t: TypeName, row: Opened, v: Value, i: nat)
    requires t in cfg.schema && i < |cfg.schema[t].props| && v.Dict? && DistinctFrom(cfg.schema, t, v, i)
    requires RowId(t, row.key) in s.rows && row.skipPrimary
    requires NameOf(cfg.schema, s, RowId(t, row.key)) !in NamesFrom(cfg.schema, t, v, i)
    requires Calm(cfg, s, NamesFrom(cfg.schema, t, v, i))
    ensures var s' := PopulateOne(Still(cfg), s, t, row, v, i).s;
            && Calm(cfg, s', NamesFrom(cfg.schema, t, v, i + 1))
            && RowId(t, row.key) in s'.rows
            && NameOf(cfg.schema, s', RowId(t, row.key)) == NameOf(cfg.schema, s, RowId(t, row.key))
  {
    hide PopulateOne, WellFormed, Unique;
    var s' := PopulateOne(Still(cfg), s, t, row, v, i).s;
    var m := {NameOf(cfg.schema, s, RowId(t, row.key))} + PropNames(cfg.schema, t, v, i);
    PopulateOneSafe(Still(cfg), s, t, row, v, i);
    PopulateOneFrame(Still(cfg), s, t, row, v, i);
    CalmPart(cfg, s, NamesFrom(cfg.schema, t, v, i), NamesFrom(cfg.schema, t, v, i + 1));
    CalmStep(cfg, s, s', m, NamesFrom(cfg.schema, t, v, i + 1));
  }

  lemma {:induction false} PopulateOneStill(cfg: Config, s: State, t: TypeName, row: Opened, v: Value, i: nat)
    requires t in cfg.schema && i < |cfg.schema[t].props|
    requires cfg.policy.ForceCreate? ==>
               && v.Dict? && DistinctProp(cfg.schema, t, v, i)
               && RowId(t, row.key) in s.rows && row.skipPrimary
               && NameOf(cfg.schema, s, RowId(t, row.key)) !in PropNames(cfg.schema, t, v, i)
               && Calm(cfg, s, PropNames(cfg.schema, t, v, i))
    ensures PopulateOne(cfg, s, t, row, v, i) == PopulateOne(Still(cfg), s, t, row, v, i)
    decreases Nest(v), v, 1, 0
  {
    hide SetPropertyImpl, WellFormed, Unique;
    var prop := cfg.schema[t].props[i];
    if !(row.skipPrimary && cfg.schema[t].pk == Some(i)) && v.Dict? {
      if prop.name in v.fields {
        SetPropertyStill(cfg, s, RowId(t, row.key), i, prop.kind, v.fields[prop.name], false);
      } else if prop.default.Some? {
        SetPropertyStill(cfg, s, RowId(t, row.key), i, prop.kind, prop.default.value, true);
      }
    }
  }

  lemma {:induction false} SetPropertyStill(cfg: Config, s: State, id: RowId, c: nat, kind: Kind, v: Value,
                                            isDefault: bool)
    requires TargetsIn(kind, cfg.schema.Keys)
    requires cfg.policy.ForceCreate? ==>
               && Writable(Still(cfg), s, id, c, kind) && DistinctValue(cfg.schema, kind, v)
               && NameOf(cfg.schema, s, id) !in ValueNames(cfg.schema, kind, v)
               && Calm(cfg, s, ValueNames(cfg.schema, kind, v))
    ensures SetPropertyImpl(cfg, s, id, c, kind, v, isDefault)
         == SetPropertyImpl(Still(cfg), s, id, c, kind, v, isDefault)
    decreases Nest(v), v, 6, 0
  {
    hide AssignList, Unbox, WellFormed, Unique;
    if kind.Many? {
      AssignListStill(cfg, s, id, c, kind.elem, v);
    } else if kind.One? && !(kind.nullable && v.Null?) {
      UnboxStill(cfg, s, kind.elem, v, Get(s, id, c), false);
    }
  }

  lemma {:induction false} UnboxStill(cfg: Config, s: State, elem: Elem, v: Value, current: Cell, inList: bool)
    requires elem.LinkElem? ==> elem.target in cfg.schema
    requires cfg.policy.ForceCreate? ==>
               DistinctSlot(cfg.schema, elem, v) && Calm(cfg, s, SlotNames(cfg.schema, elem, v))
    ensures Unbox(cfg, s, elem, v, current, inList) == Unbox(Still(cfg), s, elem, v, current, inList)
    decreases Nest(v), v, 4, 0
  {
    hide Create;
    if elem.LinkElem? && !v.Managed? {
      CreateStill(cfg, s, elem.target, v, Passed(cfg, current));
    }
  }

  lemma {:induction false} AssignListStill(cfg: Config, s: State, id: RowId, c: nat, elem: Elem, v: Value)
    requires elem.LinkElem? ==> elem.target in cfg.schema
    requires cfg.policy.ForceCreate? ==>
               && Writable(Still(cfg), s, id, c, Many(elem)) && DistinctValue(cfg.schema, Many(elem), v)
               && NameOf(cfg.schema, s, id) !in ValueNames(cfg.schema, Many(elem), v)
               && Calm(cfg, s, ValueNames(cfg.schema, Many(elem), v))
    ensures AssignList(cfg, s, id, c, elem, v) == AssignList(Still(cfg), s, id, c, elem, v)
    decreases Nest(v), v, 5, if v.Vec? then |v.elems| + 1 else 0
  {
    hide AssignFrom, Trim, WellFormed, Unique;
    if v.Vec? {
      var s1 := Prepared(cfg, s, id, c);
      if cfg.policy.ForceCreate? {
        var own := {NameOf(cfg.schema, s, id)};
        PreparedFrame(Still(cfg), s, id, c, elem);
        PreparedSafe(Still(cfg), s, id, c, elem);
        assert own + {} == own;
        CalmStep(cfg, s, s1, own, ValueNames(cfg.schema, Many(elem), v));
      }
      AssignFromStill(cfg, s1, id, c, elem, v, 0, Reusable(cfg, s, id, c));
    }
  }

  lemma {:induction false} AssignFromStill(cfg: Config, s: State, id: RowId, c: nat, elem: Elem, v: Value, i: nat,
                                           sz: nat)
    requires elem.LinkElem? ==> elem.target in cfg.schema
    requires v.Vec? && i <= |v.elems|
    requires cfg.policy.ForceCreate? ==>
               && Writable(Still(cfg), s, id, c, Many(elem)) && DistinctRest(cfg.schema, elem, v, i)
               && NameOf(cfg.schema, s, id) !in RestNames(cfg.schema, elem, v, i)
               && Calm(cfg, s, RestNames(cfg.schema, elem, v, i))
    ensures AssignFrom(cfg, s, id, c, elem, v, i, sz) == AssignFrom(Still(cfg), s, id, c, elem, v, i, sz)
    decreases Nest(v), v, 5, |v.elems| - i
  {
    hide AssignOne, WellFormed, Unique;
    if i < |v.elems| {
      var before := if i < sz && i < |Items(s, id, c)| then Items(s, id, c)[i] else NullCell;
      if cfg.policy.ForceCreate? {
        CalmPart(cfg, s, RestNames(cfg.schema, elem, v, i), SlotNames(cfg.schema, elem, v.elems[i]));
      }
      UnboxStill(cfg, s, elem, v.elems[i], before, true);
      AssignOneStill(cfg, s, id, c, elem, v, i, sz);
      var a := AssignOne(cfg, s, id, c, elem, v, i, sz);
      if a.r.Ok? {
        if cfg.policy.ForceCreate? {
          AssignCalm(cfg, s, id, c, elem, v, i, sz);
        }
        AssignFromStill(cfg, a.s, id, c, elem, v, i + 1, sz);
      }
    }
  }

  lemma AssignOneStill(cfg: Config, s: State, id: RowId, c: nat, elem: Elem, v: Value, i: nat, sz: nat)
    requires elem.LinkElem? ==> elem.target in cfg.schema
    requires v.Vec? && i < |v.elems|
    requires var before := if i < sz && i < |Items(s, id, c)| then Items(s, id, c)[i] else NullCell;
             Unbox(cfg, s, elem, v.elems[i], before, true) == Unbox(Still(cfg), s, elem, v.elems[i], before, true)
    ensures AssignOne(cfg, s, id, c, elem, v, i, sz) == AssignOne(Still(cfg), s, id, c, elem, v, i, sz)
  {
    hide Unbox;
  }

  lemma AssignCalm(cfg: Config, s: State, id: RowId, c: nat, elem: Elem, v: Value, i: nat, sz: nat)
    requires elem.LinkElem? ==> elem.target in cfg.schema
    requires v.Vec? && i < |v.elems| && DistinctRest(cfg.schema, elem, v, i)
    requires Writable(Still(cfg), s, id, c, Many(elem)) && Calm(cfg, s, RestNames(cfg.schema, elem, v, i))
    requires NameOf(cfg.schema, s, id) !in RestNames(cfg.schema, elem, v, i)
    ensures var s' := AssignOne(Still(cfg), s, id, c, elem, v, i, sz).s;
            && Writable(Still(cfg), s', id, c, Many(elem))
            && NameOf(cfg.schema, s', id) == NameOf(cfg.schema, s, id)
            && Calm(cfg, s', RestNames(cfg.schema, elem, v, i + 1))
  {
    hide AssignOne, WellFormed, Unique;
    var s' := AssignOne(Still(cfg), s, id, c, elem, v, i, sz).s;
    var m := {NameOf(cfg.schema, s, id)} + SlotNames(cfg.schema, elem, v.elems[i]);
    AssignOneSafe(Still(cfg), s, id, c, elem, v, i, sz);
    AssignOneFrame(Still(cfg), s, id, c, elem, v, i, sz);
    CalmPart(cfg, s, RestNames(cfg.schema, elem, v, i), RestNames(cfg.schema, elem, v, i + 1));
    CalmStep(cfg, s, s', m, RestNames(cfg.schema, elem, v, i + 1));
  }

  // ---- Success of a forced create in a migration ------------------------------------------------

  /** The value can become a new row, whatever rows exist: as Fits, but every object below it is new too. The types
      need no primary keys.
   */
  predicate FitsNew(sch: Schema, base: State, t: TypeName, v: Value)
    decreases Nest(v), v, 4, 0
  {
    && t in sch
    && (HasKey(sch, t) ==> HasUsableKey(sch, t, v))
    && if v.Dict? then FitsNewFrom(sch, base, t, v, 0) else NothingToSet(sch[t].props, 0)
  }

  /** All properties from i on are computed, so that a create visits none of them. */
  predicate NothingToSet(props: seq<Property>, i: nat)
    requires i <= |props|
    decreases |props| - i
  {
    i < |props| ==> props[i].kind.LinkingObjects? && NothingToSet(props, i + 1)
  }

  predicate FitsNewFrom(sch: Schema, base: State, t: TypeName, v: Value, i: nat)
    requires v.Dict? && t in sch && i <= |sch[t].props|
    decreases Nest(v), v, 3, |sch[t].props| - i
  {
    i < |sch[t].props| ==> FitsNewProp(sch, base, t, v, i) && FitsNewFrom(sch, base, t, v, i + 1)
  }

  predicate FitsNewProp(sch: Schema, base: State, t: TypeName, v: Value, i: nat)
    requires v.Dict? && t in sch && i < |sch[t].props|
    decreases Nest(v), v, 2, 0
  {
    var prop := sch[t].props[i];
    var x := Source(v, prop);
    sch[t].pk == Some(i) || prop.kind.LinkingObjects? ||
    (&& (RejectsNull(prop.kind) && (x.None? || x.value.Null?) ==> v.allowMissing)
     && (x.Some? ==> FitsNewValue(sch, base, prop.kind, x.value)))
  }

  predicate FitsNewValue(sch: Schema, base: State, kind: Kind, v: Value)
    decreases Nest(v), v, 6, 0
  {
    match kind
    case LinkingObjects(_, _) => false
    case One(elem, nullable) => (nullable && v.Null?) || FitsNewSlot(sch, base, elem, v, false)
    case Many(elem) => v.Null? || (v.Vec? && FitsNewElems(sch, base, elem, v, 0))
  }

  predicate FitsNewElems(sch: Schema, base: State, elem: Elem, v: Value, i: nat)
    requires v.Vec? && i <= |v.elems|
    decreases Nest(v), v, 5, |v.elems| - i
  {
    i < |v.elems| ==> FitsNewSlot(sch, base, elem, v.elems[i], true) && FitsNewElems(sch, base, elem, v, i + 1)
  }

  predicate FitsNewSlot(sch: Schema, base: State, elem: Elem, v: Value, inList: bool)
    decreases Nest(v), v, 5, 0
  {
    match elem
    case ScalarElem(base_) => v.Prim? && Matches(base_, v.x)
    case LinkElem(target) =>
      if v.Managed? then (inList ==> v.id.t == target) && RowId(target, v.id.key) in base.rows
      else FitsNew(sch, base, target, v)
  }

  /** A forced create in a migration that started from base. */
  ghost predicate Forcing(cfg: Config, base: State, s: State) {
    && cfg.policy.ForceCreate? && cfg.migrating
    && Safe(cfg, base, s) && DefaultsKnown(cfg.schema, base.next)
  }

  lemma {:induction false} CreateFitsNew(cfg: Config, base: State, s: State, t: TypeName, v: Value,
                                         current: Option<ObjKey>)
    requires Forcing(cfg, base, s) && t in cfg.schema && Known(base.next, v)
    ensures Create(cfg, s, t, v, current).r.Ok? <==> FitsNew(cfg.schema, base, t, v)
    decreases Nest(v), v, 3, 0
  {
    hide Populate, WellFormed, Unique;
    var o := Open(cfg, s, t, v, current);
    if o.r.Ok? {
      OpenSafe(cfg, s, t, v, current);
      SafeTrans(cfg, base, s, o.s);
      if v.Dict? {
        PopulateFitsNew(cfg, base, o.s, t, o.r.value, v, 0);
      } else {
        NoDict(cfg, o.s, t, o.r.value, v, 0);
      }
    }
  }

  lemma {:induction false} NoDict(cfg: Config, s: State, t: TypeName, row: Opened, v: Value, i: nat)
    requires t in cfg.schema && cfg.schema[t].pk.None? && !v.Dict? && i <= |cfg.schema[t].props|
    ensures Populate(cfg, s, t, row, v, i).r.Ok? <==> NothingToSet(cfg.schema[t].props, i)
    decreases |cfg.schema[t].props| - i
  {
    if i < |cfg.schema[t].props| {
      NoDict(cfg, s, t, row, v, i + 1);
    }
  }

  lemma {:induction false} PopulateFitsNew(cfg: Config, base: State, s: State, t: TypeName, row: Opened, v: Value,
                                           i: nat)
    requires Forcing(cfg, base, s) && t in cfg.schema && i <= |cfg.schema[t].props| && v.Dict?
    requires HasKey(cfg.schema, t) ==> PrimaryCell(cfg.schema, t, v).Ok?
    requires RowId(t, row.key) in s.rows && row.created && base.next <= row.key && Known(base.next, v)
    ensures Populate(cfg, s, t, row, v, i).r.Ok? <==> FitsNewFrom(cfg.schema, base, t, v, i)
    decreases Nest(v), v, 2, |cfg.schema[t].props| - i
  {
    hide PopulateOne, FitsNewProp, WellFormed, Unique;
    if i < |cfg.schema[t].props| {
      var p := PopulateOne(cfg, s, t, row, v, i);
      PopulateOneFitsNew(cfg, base, s, t, row, v, i);
      if p.r.Ok? {
        PopulateOneSafe(cfg, s, t, row, v, i);
        SafeTrans(cfg, base, s, p.s);
        PopulateFitsNew(cfg, base, p.s, t, row, v, i + 1);
      }
    }
  }

  lemma {:induction false} PopulateOneFitsNew(cfg: Config, base: State, s: State, t: TypeName, row: Opened, v: Value,
                                              i: nat)
    requires Forcing(cfg, base, s) && t in cfg.schema && i < |cfg.schema[t].props| && v.Dict?
    requires HasKey(cfg.schema, t) ==> PrimaryCell(cfg.schema, t, v).Ok?
    requires RowId(t, row.key) in s.rows && row.created && base.next <= row.key && Known(base.next, v)
    ensures PopulateOne(cfg, s, t, row, v, i).r.Ok? <==> FitsNewProp(cfg.schema, base, t, v, i)
    decreases Nest(v), v, 1, 0
  {
    hide SetPropertyImpl, WellFormed, Unique;
    var prop := cfg.schema[t].props[i];
    var id := RowId(t, row.key);
    if cfg.schema[t].pk == Some(i) {
      KeyIsSet(cfg, s, t, row, v);
    } else if prop.name in v.fields {
      SetPropertyFitsNew(cfg, base, s, id, i, prop.kind, v.fields[prop.name], false);
    } else if prop.default.Some? {
      SetPropertyFitsNew(cfg, base, s, id, i, prop.kind, prop.default.value, true);
    }
  }

  lemma {:induction false} SetPropertyFitsNew(cfg: Config, base: State, s: State, id: RowId, c: nat, kind: Kind,
                                              v: Value, isDefault: bool)
    requires Forcing(cfg, base, s) && Writable(cfg, s, id, c, kind) && TargetsIn(kind, cfg.schema.Keys)
    requires base.next <= id.key && Known(base.next, v)
    ensures SetPropertyImpl(cfg, s, id, c, kind, v, isDefault).r.Ok? <==> FitsNewValue(cfg.schema, base, kind, v)
    decreases Nest(v), v, 6, 0
  {
    hide AssignList, Unbox, WellFormed, Unique;
    if kind.Many? {
      AssignListFitsNew(cfg, base, s, id, c, kind.elem, v);
    } else if kind.One? && !(kind.nullable && v.Null?) {
      UnboxFitsNew(cfg, base, s, kind.elem, v, Get(s, id, c), false);
    }
  }

  lemma {:induction false} UnboxFitsNew(cfg: Config, base: State, s: State, elem: Elem, v: Value, current: Cell,
                                        inList: bool)
    requires Forcing(cfg, base, s) && (elem.LinkElem? ==> elem.target in cfg.schema) && Known(base.next, v)
    ensures Unbox(cfg, s, elem, v, current, inList).r.Ok? <==> FitsNewSlot(cfg.schema, base, elem, v, inList)
    decreases Nest(v), v, 4, 0
  {
    hide Create, FitsNew, WellFormed, Unique;
    if elem.LinkElem? && !v.Managed? {
      CreateFitsNew(cfg, base, s, elem.target, v, Passed(cfg, current));
    }
  }

  lemma {:induction false} AssignListFitsNew(cfg: Config, base: State, s: State, id: RowId, c: nat, elem: Elem,
                                             v: Value)
    requires Forcing(cfg, base, s) && Writable(cfg, s, id, c, Many(elem))
    requires elem.LinkElem? ==> elem.target in cfg.schema
    requires base.next <= id.key && Known(base.next, v)
    ensures AssignList(cfg, s, id, c, elem, v).r.Ok? <==> FitsNewValue(cfg.schema, base, Many(elem), v)
    decreases Nest(v), v, 5, if v.Vec? then |v.elems| + 1 else 0
  {
    hide AssignFrom, FitsNewElems, WellFormed, Unique;
    if v.Vec? {
      var s1 := Prepared(cfg, s, id, c);
      PreparedSafe(cfg, s, id, c, elem);
      SafeTrans(cfg, base, s, s1);
      AssignFromFitsNew(cfg, base, s1, id, c, elem, v, 0);
    }
  }

  lemma {:induction false} AssignFromFitsNew(cfg: Config, base: State, s: State, id: RowId, c: nat, elem: Elem,
                                             v: Value, i: nat)
    requires Forcing(cfg, base, s) && Writable(cfg, s, id, c, Many(elem))
    requires elem.LinkElem? ==> elem.target in cfg.schema
    requires v.Vec? && i <= |v.elems| && Known(base.next, v)
    ensures AssignFrom(cfg, s, id, c, elem, v, i, 0).r.Ok? <==> FitsNewElems(cfg.schema, base, elem, v, i)
    decreases Nest(v), v, 5, |v.elems| - i
  {
    hide AssignOne, FitsNewSlot, WellFormed, Unique;
    if i < |v.elems| {
      assert v.elems[i] in v.elems;
      UnboxFitsNew(cfg, base, s, elem, v.elems[i], NullCell, true);
      AppendFits(cfg, s, id, c, elem, v, i);
      var a := AssignOne(cfg, s, id, c, elem, v, i, 0);
      if a.r.Ok? {
        AssignOneSafe(cfg, s, id, c, elem, v, i, 0);
        SafeTrans(cfg, base, s, a.s);
        AssignFromFitsNew(cfg, base, a.s, id, c, elem, v, i + 1);
      }
    }
  }

  lemma AppendFits(cfg: Config, s: State, id: RowId, c: nat, elem: Elem, v: Value, i: nat)
    requires elem.LinkElem? ==> elem.target in cfg.schema
    requires v.Vec? && i < |v.elems|
    ensures AssignOne(cfg, s, id, c, elem, v, i, 0).r.Ok? <==> Unbox(cfg, s, elem, v.elems[i], NullCell, true).r.Ok?
  {
    hide Unbox;
  }

  // ---- Main results -----------------------------------------------------------------------------

  /** An update does the very same in a migration and outside one, for any store and any value. */
  lemma UpdateIgnoresMigration(cfg: Config, s: State, t: TypeName, v: Value, current: Option<ObjKey>)
    requires t in cfg.schema && !cfg.policy.ForceCreate?
    ensures Create(cfg, s, t, v, current) == Create(cfg.(migrating := false), s, t, v, current)
  {
    CreateStill(cfg, s, t, v, current);
  }

  /** So does a forced create of a distinct value none of whose names exists. */
  lemma NewNamesIgnoreMigration(cfg: Config, s: State, t: TypeName, v: Value, current: Option<ObjKey>)
    requires WellFormed(cfg.schema, s) && Unique(cfg.schema, s) && HasKey(cfg.schema, t)
    requires v.Dict? && Distinct(cfg.schema, t, v) && Absent(cfg.schema, s, Names(cfg.schema, t, v))
    ensures Create(cfg, s, t, v, current) == Create(cfg.(migrating := false), s, t, v, current)
  {
    CreateStill(cfg, s, t, v, current);
  }

  /** In a migration a successful forced create of a distinct value keeps keys unique if and only if none of its
      names existed.
   */
  lemma MigrationKeepsKeysIffNew(cfg: Config, s: State, t: TypeName, v: Value, current: Option<ObjKey>)
    requires cfg.migrating && cfg.policy.ForceCreate?
    requires WellFormed(cfg.schema, s) && Unique(cfg.schema, s) && HasKey(cfg.schema, t)
    requires v.Dict? && Distinct(cfg.schema, t, v)
    ensures var st := Create(cfg, s, t, v, current);
            st.r.Ok? ==> (Unique(cfg.schema, st.s) <==> Absent(cfg.schema, s, Names(cfg.schema, t, v)))
  {
    var st := Create(cfg, s, t, v, current);
    if st.r.Ok? && Unique(cfg.schema, st.s) {
      ForcedFindsNone(cfg, s, t, v, current);
    }
    if Absent(cfg.schema, s, Names(cfg.schema, t, v)) {
      NewNamesIgnoreMigration(cfg, s, t, v, current);
      CreateSafe(Still(cfg), s, t, v, current);
    }
  }

  /** A forced create in a migration succeeds exactly if the value fits with all its objects new, for any store and
      any value, names and missing keys notwithstanding.
   */
  lemma MigrationForceSucceedsIffFits(cfg: Config, s: State, t: TypeName, v: Value, current: Option<ObjKey>)
    requires cfg.migrating && cfg.policy.ForceCreate?
    requires WellFormed(cfg.schema, s) && t in cfg.schema
    requires Known(s.next, v) && DefaultsKnown(cfg.schema, s.next)
    ensures Create(cfg, s, t, v, current).r.Ok? <==> FitsNew(cfg.schema, s, t, v)
  {
    CreateFitsNew(cfg, s, s, t, v, current);
  }

  /** So keys do get lost: whatever the type, forcing a fitting value on an existing key succeeds and leaves two
      rows with that key.
   */
  lemma MigrationMayDuplicate(cfg: Config, s: State, t: TypeName, v: Value, k: ObjKey)
    requires cfg.migrating && cfg.policy.ForceCreate?
    requires WellFormed(cfg.schema, s) && HasKey(cfg.schema, t)
    requires Known(s.next, v) && DefaultsKnown(cfg.schema, s.next) && FitsNew(cfg.schema, s, t, v)
    requires RowId(t, k) in s.rows && NameOf(cfg.schema, s, RowId(t, k)) in OwnName(cfg.schema, t, v)
    ensures var st := Create(cfg, s, t, v, None);
            st.r.Ok? && !Unique(cfg.schema, st.s)
  {
    MigrationForceSucceedsIffFits(cfg, s, t, v, None);
    assert NameOf(cfg.schema, s, RowId(t, k)) in Names(cfg.schema, t, v);
    if Unique(cfg.schema, Create(cfg, s, t, v, None).s) {
      ForcedFindsNone(cfg, s, t, v, None);
    }
  }
}
