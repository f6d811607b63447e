/** When an upsert succeeds: exactly if the value fits the schema and the store it is given to, whatever is
    written on the way.
 */
module UpsertSuccess {
  import opened Store
  import opened Upsert
  import opened UpsertSafety
  import opened UpsertFrame
  import opened UpsertReadback
  import opened UpsertForced
  import opened UpsertPolicies

  // ---- What it means for a value to fit ---------------------------------------------------------

  /** The value can become a row of type t: it has a usable primary key, every supplied property has the type
      of its column, managed objects exist, and a row that is new gets all it requires.
   */
  predicate Fits(sch: Schema, base: State, t: TypeName, v: Value) {
    Misfit(sch, false, base, t, v).None?
  }

  /** The value can be set to a cell of the given kind; loc is the cell if its row exists already. */
  predicate FitsValue(sch: Schema, base: State, kind: Kind, loc: Option<Loc>, v: Value) {
    ValueMisfit(sch, false, base, kind, loc, v).None?
  }

  /** What is wrong with a key, if anything. */
  function KeyMisfit(kind: Kind, x: Option<Value>): Option<Error>
    requires PrimaryKind(kind)
  {
    if UsableKey(kind, x) then None
    else if x.None? then Some(MissingPropertyValue)
    else if x.value.Null? then Some(NullPrimaryKey)
    else Some(BadCast)
  }

  /** The first thing about the value, in the order of its properties, that keeps it from becoming a row of type t. If
      it is forced, a key that exists is one of them.
   */
  function Misfit(sch: Schema, force: bool, base: State, t: TypeName, v: Value): Option<Error>
    decreases Nest(v), v, 4, 0
  {
    if !v.Dict? || !HasKey(sch, t) then Some(BadCast)
    else
      var prop := sch[t].props[sch[t].pk.value];
      var e := KeyMisfit(prop.kind, Source(v, prop));
      if e.Some? then e
      else
        var row := FindRow(sch, base, t, KeyCell(Source(v, prop)));
        if force && row.Some? then Some(DuplicatePrimaryKey) else FromMisfit(sch, force, base, t, row, v, 0)
  }

  function FromMisfit(sch: Schema, force: bool, base: State, t: TypeName, row: Option<ObjKey>, v: Value,
                      i: nat): Option<Error>
    requires v.Dict? && t in sch && i <= |sch[t].props|
    decreases Nest(v), v, 3, |sch[t].props| - i
  {
    if i == |sch[t].props| then None
    else
      var e := PropMisfit(sch, force, base, t, row, v, i);
      if e.Some? then e else FromMisfit(sch, force, base, t, row, v, i + 1)
  }

  function PropMisfit(sch: Schema, force: bool, base: State, t: TypeName, row: Option<ObjKey>, v: Value,
                      i: nat): Option<Error>
    requires v.Dict? && t in sch && i < |sch[t].props|
    decreases Nest(v), v, 2, 0
  {
    var prop := sch[t].props[i];
    var x := if row.Some? then Lookup(v, prop.name) else Source(v, prop);
    if sch[t].pk == Some(i) || prop.kind.LinkingObjects? || (x.None? && row.Some?) then None
    else if (x.None? || x.value.Null?) && RejectsNull(prop.kind) && !v.allowMissing then Some(MissingPropertyValue)
    else if x.None? then None
    else ValueMisfit(sch, force, base, prop.kind, LocIn(t, row, i), x.value)
  }

  function LocIn(t: TypeName, row: Option<ObjKey>, c: nat): Option<Loc> {
    match row
    case Some(k) => Some(Loc(RowId(t, k), c))
    case None => None
  }

  function ValueMisfit(sch: Schema, force: bool, base: State, kind: Kind, loc: Option<Loc>, v: Value): Option<Error>
    decreases Nest(v), v, 6, 0
  {
    match kind
    case LinkingObjects(_, _) => Some(ReadOnlyProperty)
    case One(elem, nullable) =>
      if nullable && v.Null? then None else SlotMisfit(sch, force, base, elem, v, false)
    case Many(elem) =>
      if (v.ListOf? && loc == Some(v.loc)) || v.Null? then None
      else if v.Vec? then ElemsMisfit(sch, force, base, elem, v, 0)
      else Some(BadCast)
  }

  function ElemsMisfit(sch: Schema, force: bool, base: State, elem: Elem, v: Value, i: nat): Option<Error>
    requires v.Vec? && i <= |v.elems|
    decreases Nest(v), v, 5, |v.elems| - i
  {
    if i == |v.elems| then None
    else
      var e := SlotMisfit(sch, force, base, elem, v.elems[i], true);
      if e.Some? then e else ElemsMisfit(sch, force, base, elem, v, i + 1)
  }

  function SlotMisfit(sch: Schema, force: bool, base: State, elem: Elem, v: Value, inList: bool): Option<Error>
    decreases Nest(v), v, 5, 0
  {
    match elem
    case ScalarElem(base_) => if v.Prim? && Matches(base_, v.x) then None else Some(BadCast)
    case LinkElem(target) =>
      if !v.Managed? then Misfit(sch, force, base, target, v)
      else if inList && v.id.t != target then Some(InvalidObject)
      else if RowId(target, v.id.key) !in base.rows then Some(KeyNotFound)
      else None
  }

  /** The call fails with this error, or succeeds if there is none. */
  predicate Ends<T>(r: Result<T>, e: Option<Error>) {
    match e
    case None => r.Ok?
    case Some(error) => r == Err(error)
  }

  // ---- Values that refer to rows given out already ----------------------------------------------

  /** Objects and lists the value refers to carry keys that have been given out. */
  predicate Known(next: ObjKey, v: Value) {
    match v
    case Managed(id) => id.key < next
    case ListOf(loc) => loc.id.key < next
    case Dict(fields, _) => forall name | name in fields :: Known(next, fields[name])
    case Vec(elems) => forall e | e in elems :: Known(next, e)
    case _ => true
  }

  ghost predicate DefaultsKnown(sch: Schema, next: ObjKey) {
    forall t, i | t in sch && 0 <= i < |sch[t].props| && sch[t].props[i].default.Some? ::
      Known(next, sch[t].props[i].default.value)
  }

  /** The store an update started from and the one it has come to, with the names in m written so far. */
  ghost predicate Underway(cfg: Config, base: State, s: State, m: set<Name>) {
    && Ready(cfg, base) && Ready(cfg, s) && Safe(cfg, base, s)
    && Frame(cfg.schema, base, s, m)
    && DefaultsKnown(cfg.schema, base.next)
  }

  lemma UnderwayStep(cfg: Config, base: State, s: State, s': State, m: set<Name>, m': set<Name>, names: set<Name>)
    requires Underway(cfg, base, s, m) && Safe(cfg, s, s') && Frame(cfg.schema, s, s', m') && names == m + m'
    ensures Underway(cfg, base, s', names)
  {
    hide WellFormed, Unique;
    SafeTrans(cfg, base, s, s');
    FrameTrans(cfg.schema, base, s, s', m, m');
  }

  // ---- Success level by level -------------------------------------------------------------------

  /** Opening succeeds with a usable key, and the row is new exactly if the first store has none. Then it fails if the
      create is forced.
   */
  lemma OpenFits(cfg: Config, base: State, m: set<Name>, s: State, t: TypeName, v: Value, current: Option<ObjKey>)
    requires Underway(cfg, base, s, m) && HasKey(cfg.schema, t) && v.Dict?
    requires m !! OwnName(cfg.schema, t, v)
    ensures var o := Open(cfg, s, t, v, current);
            var prop := cfg.schema[t].props[cfg.schema[t].pk.value];
            var e := KeyMisfit(prop.kind, Source(v, prop));
            && (e.Some? ==> o.r == Err(e.value))
            && (e.None? ==>
                  var row := FindRow(cfg.schema, base, t, KeyCell(Source(v, prop)));
                  && (cfg.policy.ForceCreate? && row.Some? ==> o.r == Err(DuplicatePrimaryKey))
                  && (!(cfg.policy.ForceCreate? && row.Some?) ==>
                        && o.r.Ok?
                        && (o.r.value.created <==> RowId(t, o.r.value.key) !in base.rows)
                        && row == if o.r.value.created then None else Some(o.r.value.key)))
  {
    var pk := PrimaryCell(cfg.schema, t, v);
    if pk.Ok? {
      FindsSame(cfg, base, m, s, t, v);
      OpenUntouched(cfg, base, m, s, t, v, current);
    }
  }

  lemma FindsSame(cfg: Config, base: State, m: set<Name>, s: State, t: TypeName, v: Value)
    requires Underway(cfg, base, s, m) && HasKey(cfg.schema, t)
    requires m !! OwnName(cfg.schema, t, v) && PrimaryCell(cfg.schema, t, v).Ok?
    ensures FindRow(cfg.schema, s, t, PrimaryCell(cfg.schema, t, v).value)
         == FindRow(cfg.schema, base, t, PrimaryCell(cfg.schema, t, v).value)
  {
    var pk := PrimaryCell(cfg.schema, t, v).value;
    var name := Keyed(t, pk);
    assert name in OwnName(cfg.schema, t, v);
    var before, now := FindRow(cfg.schema, base, t, pk), FindRow(cfg.schema, s, t, pk);
    if before.Some? {
      assert NameOf(cfg.schema, base, RowId(t, before.value)) == name;
      assert NameOf(cfg.schema, s, RowId(t, before.value)) == name;
    }
    if now.Some? {
      assert NameOf(cfg.schema, s, RowId(t, now.value)) == name;
      assert RowId(t, now.value) in base.rows;
      assert NameOf(cfg.schema, base, RowId(t, now.value)) == name;
    }
  }

  lemma {:induction false} CreateFits(cfg: Config, base: State, m: set<Name>, s: State, t: TypeName, v: Value,
                                      current: Option<ObjKey>)
    requires Underway(cfg, base, s, m) && HasKey(cfg.schema, t) && Distinct(cfg.schema, t, v) && !v.Managed?
    requires m !! Names(cfg.schema, t, v) && Known(base.next, v)
    ensures Ends(Create(cfg, s, t, v, current).r, Misfit(cfg.schema, cfg.policy.ForceCreate?, base, t, v))
    decreases Nest(v), v, 3, 0
  {
    hide Populate, Unique, WellFormed;
    if v.Dict? {
      OpenFits(cfg, base, m, s, t, v, current);
      var o := Open(cfg, s, t, v, current);
      if o.r.Ok? {
        var own := OwnName(cfg.schema, t, v);
        OpenSafe(cfg, s, t, v, current);
        OpenFrame(cfg, s, t, v, current);
        UnderwayStep(cfg, base, s, o.s, m, own, m + own);
        PopulateFits(cfg, base, m + own, o.s, t, o.r.value, v, 0);
      }
    }
  }

  lemma {:induction false} PopulateFits(cfg: Config, base: State, m: set<Name>, s: State, t: TypeName, row: Opened,
                                        v: Value, i: nat)
    requires Underway(cfg, base, s, m) && t in cfg.schema && i <= |cfg.schema[t].props| && v.Dict?
    requires RowId(t, row.key) in s.rows && row.skipPrimary
    requires DistinctFrom(cfg.schema, t, v, i)
    requires NameOf(cfg.schema, s, RowId(t, row.key)) !in NamesFrom(cfg.schema, t, v, i)
    requires m !! NamesFrom(cfg.schema, t, v, i) && NameOf(cfg.schema, s, RowId(t, row.key)) in m
    requires row.created <==> RowId(t, row.key) !in base.rows
    requires Known(base.next, v)
    ensures Ends(Populate(cfg, s, t, row, v, i).r,
                 FromMisfit(cfg.schema, cfg.policy.ForceCreate?, base, t,
                            if row.created then None else Some(row.key), v, i))
    decreases Nest(v), v, 2, |cfg.schema[t].props| - i
  {
    hide PopulateOne, PropMisfit, Underway, DistinctProp, PropNames;
    if i < |cfg.schema[t].props| {
      var p := PopulateOne(cfg, s, t, row, v, i);
      PopulateOneFits(cfg, base, m, s, t, row, v, i);
      if p.r.Ok? {
        PopulateOneUnderway(cfg, base, m, s, t, row, v, i);
        PopulateFits(cfg, base, m + PropNames(cfg.schema, t, v, i), p.s, t, row, v, i + 1);
      }
    }
  }

  lemma PopulateOneUnderway(cfg: Config, base: State, m: set<Name>, s: State, t: TypeName, row: Opened, v: Value,
                            i: nat)
    requires Underway(cfg, base, s, m) && t in cfg.schema && i < |cfg.schema[t].props| && v.Dict?
    requires RowId(t, row.key) in s.rows && row.skipPrimary
    requires DistinctProp(cfg.schema, t, v, i)
    requires NameOf(cfg.schema, s, RowId(t, row.key)) !in PropNames(cfg.schema, t, v, i)
    requires NameOf(cfg.schema, s, RowId(t, row.key)) in m
    ensures var s' := PopulateOne(cfg, s, t, row, v, i).s;
            && Underway(cfg, base, s', m + PropNames(cfg.schema, t, v, i))
            && RowId(t, row.key) in s'.rows
            && NameOf(cfg.schema, s', RowId(t, row.key)) == NameOf(cfg.schema, s, RowId(t, row.key))
  {
    hide PopulateOne, Unique, WellFormed;
    var own, mine := {NameOf(cfg.schema, s, RowId(t, row.key))}, PropNames(cfg.schema, t, v, i);
    PopulateOneSafe(cfg, s, t, row, v, i);
    PopulateOneFrame(cfg, s, t, row, v, i);
    UnderwayStep(cfg, base, s, PopulateOne(cfg, s, t, row, v, i).s, m, own + mine, m + mine);
  }

  lemma {:induction false} PopulateOneFits(cfg: Config, base: State, m: set<Name>, s: State, t: TypeName, row: Opened,
                                           v: Value, i: nat)
    requires Underway(cfg, base, s, m) && t in cfg.schema && i < |cfg.schema[t].props| && v.Dict?
    requires RowId(t, row.key) in s.rows && row.skipPrimary
    requires DistinctProp(cfg.schema, t, v, i)
    requires NameOf(cfg.schema, s, RowId(t, row.key)) !in PropNames(cfg.schema, t, v, i)
    requires m !! PropNames(cfg.schema, t, v, i)
    requires row.created <==> RowId(t, row.key) !in base.rows
    requires Known(base.next, v)
    ensures Ends(PopulateOne(cfg, s, t, row, v, i).r,
                 PropMisfit(cfg.schema, cfg.policy.ForceCreate?, base, t,
                            if row.created then None else Some(row.key), v, i))
    decreases Nest(v), v, 1, 0
  {
    hide SetPropertyImpl, Unique, WellFormed;
    var prop := cfg.schema[t].props[i];
    var id := RowId(t, row.key);
    if cfg.schema[t].pk == Some(i) || prop.kind.LinkingObjects? {
    } else if prop.name in v.fields {
      SetPropertyFits(cfg, base, m, s, id, i, prop.kind, v.fields[prop.name], false);
    } else if row.created && prop.default.Some? {
      SetPropertyFits(cfg, base, m, s, id, i, prop.kind, prop.default.value, true);
    }
  }

  lemma {:induction false} SetPropertyFits(cfg: Config, base: State, m: set<Name>, s: State, id: RowId, c: nat,
                                           kind: Kind, v: Value, isDefault: bool)
    requires Underway(cfg, base, s, m) && Writable(cfg, s, id, c, kind) && TargetsIn(kind, cfg.schema.Keys)
    requires DistinctValue(cfg.schema, kind, v)
    requires NameOf(cfg.schema, s, id) !in ValueNames(cfg.schema, kind, v)
    requires m !! ValueNames(cfg.schema, kind, v) && Known(base.next, v)
    ensures Ends(SetPropertyImpl(cfg, s, id, c, kind, v, isDefault).r,
                 ValueMisfit(cfg.schema, cfg.policy.ForceCreate?, base, kind,
                             if id in base.rows then Some(Loc(id, c)) else None, v))
    decreases Nest(v), v, 6, 0
  {
    hide AssignList, Unbox, Unique, WellFormed;
    if kind.Many? {
      AssignListFits(cfg, base, m, s, id, c, kind.elem, v);
    } else if kind.One? && !(kind.nullable && v.Null?) {
      UnboxFits(cfg, base, m, s, kind.elem, v, Get(s, id, c), false);
    }
  }

  lemma {:induction false} UnboxFits(cfg: Config, base: State, m: set<Name>, s: State, elem: Elem, v: Value,
                                     current: Cell, inList: bool)
    requires Underway(cfg, base, s, m) && (elem.LinkElem? ==> elem.target in cfg.schema)
    requires DistinctSlot(cfg.schema, elem, v)
    requires m !! SlotNames(cfg.schema, elem, v) && Known(base.next, v)
    ensures Ends(Unbox(cfg, s, elem, v, current, inList).r,
                 SlotMisfit(cfg.schema, cfg.policy.ForceCreate?, base, elem, v, inList))
    decreases Nest(v), v, 4, 0
  {
    hide Create, Unique, WellFormed, Misfit;
    if elem.LinkElem? && !v.Managed? {
      CreateFits(cfg, base, m, s, elem.target, v, Passed(cfg, current));
    }
  }

  lemma {:induction false} AssignListFits(cfg: Config, base: State, m: set<Name>, s: State, id: RowId, c: nat,
                                          elem: Elem, v: Value)
    requires Underway(cfg, base, s, m) && Writable(cfg, s, id, c, Many(elem))
    requires elem.LinkElem? ==> elem.target in cfg.schema
    requires DistinctValue(cfg.schema, Many(elem), v)
    requires NameOf(cfg.schema, s, id) !in ValueNames(cfg.schema, Many(elem), v)
    requires m !! ValueNames(cfg.schema, Many(elem), v) && Known(base.next, v)
    ensures Ends(AssignList(cfg, s, id, c, elem, v).r,
                 ValueMisfit(cfg.schema, cfg.policy.ForceCreate?, base, Many(elem),
                             if id in base.rows then Some(Loc(id, c)) else None, v))
    decreases Nest(v), v, 5, if v.Vec? then |v.elems| + 1 else 0
  {
    hide AssignFrom, Trim, ElemsMisfit, SlotMisfit, Unique, WellFormed, Frame, ElemNames, DistinctElems, ItemsHold;
    if v.Vec? {
      var s1 := Prepared(cfg, s, id, c);
      var sz := Reusable(cfg, s, id, c);
      var own := {NameOf(cfg.schema, s, id)};
      PreparedFrame(cfg, s, id, c, elem);
      PreparedSafe(cfg, s, id, c, elem);
      var none: set<Name> := {};
      assert own + none == own;
      UnderwayStep(cfg, base, s, s1, m, own, m + own);
      AssignFromFits(cfg, base, m + own, s1, id, c, elem, v, 0, sz);
      AssignFromHolds(cfg, base, m + own, s1, id, c, elem, v, 0, sz);
      AssignFromSafe(cfg, s1, id, c, elem, v, 0, sz);
      var l := AssignFrom(cfg, s1, id, c, elem, v, 0, sz);
      if l.r.Ok? {
        ListCell(cfg, l.s, id, c, elem);
        TrimItems(l.s, id, c, |v.elems|, sz);
      }
    }
  }

  lemma PreparedSafe(cfg: Config, s: State, id: RowId, c: nat, elem: Elem)
    requires WellFormed(cfg.schema, s) && Writable(cfg, s, id, c, Many(elem))
    ensures Safe(cfg, s, Prepared(cfg, s, id, c))
  {
    ClearSafe(cfg, s, id, c, elem);
  }

  lemma {:induction false} AssignFromFits(cfg: Config, base: State, m: set<Name>, s: State, id: RowId, c: nat,
                                          elem: Elem, v: Value, i: nat, sz: nat)
    requires Underway(cfg, base, s, m) && Writable(cfg, s, id, c, Many(elem))
    requires elem.LinkElem? ==> elem.target in cfg.schema
    requires v.Vec? && i <= |v.elems| && DistinctRest(cfg.schema, elem, v, i)
    requires NameOf(cfg.schema, s, id) !in RestNames(cfg.schema, elem, v, i) && NameOf(cfg.schema, s, id) in m
    requires m !! RestNames(cfg.schema, elem, v, i) && Known(base.next, v)
    requires |Items(s, id, c)| == Max(i, sz)
    ensures Ends(AssignFrom(cfg, s, id, c, elem, v, i, sz).r,
                 ElemsMisfit(cfg.schema, cfg.policy.ForceCreate?, base, elem, v, i))
    decreases Nest(v), v, 5, |v.elems| - i
  {
    hide AssignOne, SlotMisfit, Unique, WellFormed, Underway;
    if i < |v.elems| {
      var a := AssignOne(cfg, s, id, c, elem, v, i, sz);
      assert v.elems[i] in v.elems;
      AssignOneFits(cfg, base, m, s, id, c, elem, v, i, sz);
      if a.r.Ok? {
        AssignOneUnderway(cfg, base, m, s, id, c, elem, v, i, sz);
        AssignFromFits(cfg, base, m + SlotNames(cfg.schema, elem, v.elems[i]), a.s, id, c, elem, v, i + 1, sz);
      }
    }
  }

  lemma AssignOneUnderway(cfg: Config, base: State, m: set<Name>, s: State, id: RowId, c: nat, elem: Elem, v: Value,
                          i: nat, sz: nat)
    requires Underway(cfg, base, s, m) && Writable(cfg, s, id, c, Many(elem))
    requires elem.LinkElem? ==> elem.target in cfg.schema
    requires v.Vec? && i < |v.elems| && DistinctSlot(cfg.schema, elem, v.elems[i])
    requires NameOf(cfg.schema, s, id) !in SlotNames(cfg.schema, elem, v.elems[i]) && NameOf(cfg.schema, s, id) in m
    requires m !! SlotNames(cfg.schema, elem, v.elems[i])
    requires |Items(s, id, c)| == Max(i, sz)
    ensures var a := AssignOne(cfg, s, id, c, elem, v, i, sz);
            && Underway(cfg, base, a.s, m + SlotNames(cfg.schema, elem, v.elems[i]))
            && Writable(cfg, a.s, id, c, Many(elem))
            && NameOf(cfg.schema, a.s, id) == NameOf(cfg.schema, s, id)
            && (a.r.Ok? ==> |Items(a.s, id, c)| == Max(i + 1, sz))
  {
    hide AssignOne, Unique, WellFormed;
    var own, names := {NameOf(cfg.schema, s, id)}, SlotNames(cfg.schema, elem, v.elems[i]);
    AssignOneSafe(cfg, s, id, c, elem, v, i, sz);
    AssignOneFrame(cfg, s, id, c, elem, v, i, sz);
    AssignOneHolds(cfg, base, m, s, id, c, elem, v, i, sz);
    UnderwayStep(cfg, base, s, AssignOne(cfg, s, id, c, elem, v, i, sz).s, m, own + names, m + names);
  }

  lemma {:induction false} AssignOneFits(cfg: Config, base: State, m: set<Name>, s: State, id: RowId, c: nat,
                                         elem: Elem, v: Value, i: nat, sz: nat)
    requires Underway(cfg, base, s, m) && Writable(cfg, s, id, c, Many(elem))
    requires elem.LinkElem? ==> elem.target in cfg.schema
    requires v.Vec? && i < |v.elems| && DistinctSlot(cfg.schema, elem, v.elems[i])
    requires NameOf(cfg.schema, s, id) !in SlotNames(cfg.schema, elem, v.elems[i])
    requires m !! SlotNames(cfg.schema, elem, v.elems[i]) && Known(base.next, v.elems[i])
    requires |Items(s, id, c)| == Max(i, sz)
    ensures Ends(AssignOne(cfg, s, id, c, elem, v, i, sz).r,
                 SlotMisfit(cfg.schema, cfg.policy.ForceCreate?, base, elem, v.elems[i], true))
    decreases Nest(v), v, 4, 1
  {
    hide Unbox, SlotMisfit, Unique, WellFormed;
    var before := if i < sz then Items(s, id, c)[i] else NullCell;
    UnboxFits(cfg, base, m, s, elem, v.elems[i], before, true);
    UnboxSafe(cfg, s, elem, v.elems[i], before, true);
    UnboxFrame(cfg, s, elem, v.elems[i], before, true);
    var u := Unbox(cfg, s, elem, v.elems[i], before, true);
    RowKept(cfg.schema, s, u.s, SlotNames(cfg.schema, elem, v.elems[i]), id);
  }

  // ---- Main results -----------------------------------------------------------------------------

  /** A create under any policy, not forced in a migration, fails with exactly the first error that the value has
      against the store it is given to, in the order of its properties and elements and depth first, and succeeds if it
      has none. Whatever it has written by then makes no difference.
   */
  lemma CreateFailsWithFirstMisfit(cfg: Config, s: State, t: TypeName, v: Value, current: Option<ObjKey>)
    requires Ready(cfg, s) && HasKey(cfg.schema, t) && !v.Managed? && Distinct(cfg.schema, t, v)
    requires Known(s.next, v) && DefaultsKnown(cfg.schema, s.next)
    ensures Ends(Create(cfg, s, t, v, current).r, Misfit(cfg.schema, cfg.policy.ForceCreate?, s, t, v))
  {
    FrameRefl(cfg.schema, s, {});
    CreateFits(cfg, s, {}, s, t, v, current);
  }

  /** An update under either updating policy succeeds exactly if the value fits the store it is given to.
      Whether it does is decided before anything is written.
   */
  lemma UpdateSucceedsIffFits(cfg: Config, s: State, t: TypeName, v: Value, current: Option<ObjKey>)
    requires Ready(cfg, s) && !cfg.policy.ForceCreate?
    requires HasKey(cfg.schema, t) && !v.Managed? && Distinct(cfg.schema, t, v)
    requires Known(s.next, v) && DefaultsKnown(cfg.schema, s.next)
    ensures Create(cfg, s, t, v, current).r.Ok? <==> Fits(cfg.schema, s, t, v)
  {
    CreateFailsWithFirstMisfit(cfg, s, t, v, current);
  }

  /** A forced create succeeds exactly if in addition no row has a name of the value. */
  lemma ForceSucceedsIffFits(cfg: Config, s: State, t: TypeName, v: Value)
    requires Ready(cfg, s) && cfg.policy.ForceCreate?
    requires HasKey(cfg.schema, t) && v.Dict? && Distinct(cfg.schema, t, v)
    requires Known(s.next, v) && DefaultsKnown(cfg.schema, s.next)
    ensures Create(cfg, s, t, v, None).r.Ok?
       <==> Fits(cfg.schema, s, t, v) && Absent(cfg.schema, s, Names(cfg.schema, t, v))
  {
    var all := cfg.(policy := UpdateAll);
    ForceCreateExactly(cfg, all, s, t, v);
    UpdateSucceedsIffFits(all, s, t, v, None);
  }
}
