/** What a caller of an upsert relies on: the value can be read back, everything else is as it was, a new
    object is complete, and writing back what was read changes nothing.
 */
module UpsertLaws {
  import opened Store
  import opened Upsert
  import opened UpsertSafety
  import opened UpsertFrame
  import opened UpsertReadback
  import opened UpsertIdempotence
  import opened UpsertForced

  /** After a successful create or update under any policy, the row that holds the value is the one its
      primary key finds, only rows named in the value have changed or appeared, and the store is as
      well formed as before.
   */
  lemma UpsertReadsBack(cfg: Config, s: State, t: TypeName, v: Value, current: Option<ObjKey>)
    requires Ready(cfg, s) && HasKey(cfg.schema, t) && v.Dict? && Distinct(cfg.schema, t, v)
    ensures var st := Create(cfg, s, t, v, current);
            && Frame(cfg.schema, s, st.s, Names(cfg.schema, t, v))
            && WellFormed(cfg.schema, st.s) && Unique(cfg.schema, st.s)
            && (st.r.Ok? ==>
                  && Holds(cfg.schema, s, st.s, t, st.r.value, v)
                  && HasUsableKey(cfg.schema, t, v)
                  && FindRow(cfg.schema, st.s, t, KeyOf(cfg.schema, t, v)) == Some(st.r.value))
  {
    var st := Create(cfg, s, t, v, current);
    CreateSafe(cfg, s, t, v, current);
    CreateFrame(cfg, s, t, v, current);
    FrameRefl(cfg.schema, s, {});
    CreateHolds(cfg, s, {}, s, t, v, current);
    if st.r.Ok? {
      var pk := PrimaryCell(cfg.schema, t, v);
      assert NameOf(cfg.schema, st.s, RowId(t, st.r.value)) in OwnName(cfg.schema, t, v);
      FindNamed(cfg.schema, st.s, t, st.r.value, pk.value);
    }
  }

  lemma {:induction false} HoldsAt(sch: Schema, base: State, s: State, t: TypeName, k: ObjKey, v: Value, i: nat, j: nat)
    requires v.Dict? && t in sch && i <= j < |sch[t].props|
    requires HoldsFrom(sch, base, s, t, k, v, i)
    ensures HoldsProp(sch, base, s, t, k, v, j)
    decreases j - i
  {
    if i < j {
      HoldsAt(sch, base, s, t, k, v, i + 1, j);
    }
  }

  /** Reading a supplied property of a row that holds a dictionary gives the supplied value; where that is
      itself a dictionary, it gives a row that holds it, and so on down.
   */
  lemma HeldPropertyReadsBack(sch: Schema, base: State, s: State, t: TypeName, k: ObjKey, v: Value, i: nat)
    requires Holds(sch, base, s, t, k, v) && i < |sch[t].props| && sch[t].pk != Some(i)
    requires sch[t].props[i].name in v.fields && sch[t].props[i].kind.One?
    ensures var kind := sch[t].props[i].kind;
            ReadsBack(sch, base, s, kind.elem, GetProperty(s, RowId(t, k), i, kind), v.fields[sch[t].props[i].name])
  {
    HoldsAt(sch, base, s, t, k, v, 0, i);
    var kind := sch[t].props[i].kind;
    var x := v.fields[sch[t].props[i].name];
    assert CellHolds(sch, base, s, kind, RowId(t, k), i, x);
    if !(kind.nullable && x.Null?) {
      assert SlotHolds(sch, base, s, kind.elem, Get(s, RowId(t, k), i), x, false);
      if kind.elem.LinkElem? && !x.Managed? {
        assert Holds(sch, base, s, kind.elem.target, Get(s, RowId(t, k), i).key, x);
      }
    }
  }

  /** What the getter gives for a cell that was set to x: null, the scalar, the object, or the object made of x. */
  predicate ReadsBack(sch: Schema, base: State, s: State, elem: Elem, r: Result<Value>, x: Value) {
    && r.Ok?
    && (x.Null? || x.Prim? ==> r.value == x)
    && (x.Managed? ==> elem.LinkElem? && r.value == Managed(RowId(elem.target, x.id.key)))
    && (x.Dict? ==> elem.LinkElem? && r.value.Managed? && Holds(sch, base, s, elem.target, r.value.id.key, x))
    && (x.Null? || x.Prim? || x.Managed? || x.Dict?)
  }

  /** A create that has succeeded, of a distinct value. */
  ghost predicate Created(cfg: Config, s: State, t: TypeName, v: Value, current: Option<ObjKey>) {
    && Ready(cfg, s) && HasKey(cfg.schema, t) && v.Dict? && Distinct(cfg.schema, t, v)
    && Create(cfg, s, t, v, current).r.Ok?
  }

  /** After a create each supplied property but the key reads back what was supplied. */
  lemma PropertyReadsBack(cfg: Config, s: State, t: TypeName, v: Value, current: Option<ObjKey>, i: nat)
    requires Created(cfg, s, t, v, current) && i < |cfg.schema[t].props| && cfg.schema[t].pk != Some(i)
    requires cfg.schema[t].props[i].name in v.fields && cfg.schema[t].props[i].kind.One?
    ensures var st := Create(cfg, s, t, v, current);
            var prop := cfg.schema[t].props[i];
            ReadsBack(cfg.schema, s, st.s, prop.kind.elem,
                      GetProperty(st.s, RowId(t, st.r.value), i, prop.kind), v.fields[prop.name])
  {
    var st := Create(cfg, s, t, v, current);
    UpsertReadsBack(cfg, s, t, v, current);
    HeldPropertyReadsBack(cfg.schema, s, st.s, t, st.r.value, v, i);
  }

  /** Item j of a supplied list reads back element j. */
  lemma {:induction false} ItemReadsBack(sch: Schema, base: State, s: State, elem: Elem, items: seq<Cell>, v: Value,
                                         i: nat, j: nat)
    requires v.Vec? && |items| == |v.elems| && i <= j < |items|
    requires ItemsHold(sch, base, s, elem, items, v, i)
    ensures SlotHolds(sch, base, s, elem, items[j], v.elems[j], true)
    decreases j - i
  {
    if i < j {
      ItemReadsBack(sch, base, s, elem, items, v, i + 1, j);
    }
  }

  /** After a create a supplied list has the length of the value and each item reads back its element: the scalar,
      a link to the object, or a link to a row that holds the dictionary. A supplied null reads back empty.
   */
  lemma ListReadsBack(cfg: Config, s: State, t: TypeName, v: Value, current: Option<ObjKey>, i: nat)
    requires Created(cfg, s, t, v, current) && i < |cfg.schema[t].props| && cfg.schema[t].pk != Some(i)
    requires cfg.schema[t].props[i].name in v.fields && cfg.schema[t].props[i].kind.Many?
    ensures var st := Create(cfg, s, t, v, current);
            var x := v.fields[cfg.schema[t].props[i].name];
            var items := Items(st.s, RowId(t, st.r.value), i);
            && (x.Null? ==> items == [])
            && (x.Vec? ==>
                  && |items| == |x.elems|
                  && forall j | 0 <= j < |items| ::
                       SlotHolds(cfg.schema, s, st.s, cfg.schema[t].props[i].kind.elem, items[j], x.elems[j], true))
  {
    var st := Create(cfg, s, t, v, current);
    var elem := cfg.schema[t].props[i].kind.elem;
    var x := v.fields[cfg.schema[t].props[i].name];
    var items := Items(st.s, RowId(t, st.r.value), i);
    UpsertReadsBack(cfg, s, t, v, current);
    HoldsAt(cfg.schema, s, st.s, t, st.r.value, v, 0, i);
    assert CellHolds(cfg.schema, s, st.s, Many(elem), RowId(t, st.r.value), i, x);
    if x.Vec? {
      forall j | 0 <= j < |items|
        ensures SlotHolds(cfg.schema, s, st.s, elem, items[j], x.elems[j], true)
      {
        ItemReadsBack(cfg.schema, s, st.s, elem, items, x, 0, j);
      }
    }
  }

  /** In a row a create has made, every required property holds the value it was given or its default, and neither
      is null, unless the value may leave properties out.
   */
  lemma NewObjectIsComplete(cfg: Config, s: State, t: TypeName, v: Value, current: Option<ObjKey>, i: nat)
    requires Created(cfg, s, t, v, current) && i < |cfg.schema[t].props| && cfg.schema[t].pk != Some(i)
    requires RowId(t, Create(cfg, s, t, v, current).r.value) !in s.rows && !v.allowMissing
    requires RejectsNull(cfg.schema[t].props[i].kind)
    ensures var st := Create(cfg, s, t, v, current);
            var prop := cfg.schema[t].props[i];
            var x := Source(v, prop);
            && x.Some? && !x.value.Null?
            && CellHolds(cfg.schema, s, st.s, prop.kind, RowId(t, st.r.value), i, x.value)
  {
    var st := Create(cfg, s, t, v, current);
    UpsertReadsBack(cfg, s, t, v, current);
    HoldsAt(cfg.schema, s, st.s, t, st.r.value, v, 0, i);
  }

  /** A create leaves the cell of a property that its value does not mention, if the row existed. */
  lemma OmittedPropertyIsKept(cfg: Config, s: State, t: TypeName, v: Value, current: Option<ObjKey>, i: nat)
    requires Created(cfg, s, t, v, current) && i < |cfg.schema[t].props| && cfg.schema[t].pk != Some(i)
    requires RowId(t, Create(cfg, s, t, v, current).r.value) in s.rows && cfg.schema[t].props[i].name !in v.fields
    ensures var st := Create(cfg, s, t, v, current);
            Get(st.s, RowId(t, st.r.value), i) == Get(s, RowId(t, st.r.value), i)
  {
    var st := Create(cfg, s, t, v, current);
    UpsertReadsBack(cfg, s, t, v, current);
    HoldsAt(cfg.schema, s, st.s, t, st.r.value, v, 0, i);
  }

  /** A property that is neither supplied nor has a default reads back empty from a new row: null if it may be, and
      otherwise, where the value may leave it out, zero; a list has no items.
   */
  lemma OmittedReadsBackEmpty(cfg: Config, s: State, t: TypeName, v: Value, current: Option<ObjKey>, i: nat)
    requires Created(cfg, s, t, v, current) && i < |cfg.schema[t].props| && cfg.schema[t].pk != Some(i)
    requires RowId(t, Create(cfg, s, t, v, current).r.value) !in s.rows
    requires Source(v, cfg.schema[t].props[i]).None?
    ensures var st := Create(cfg, s, t, v, current);
            var kind := cfg.schema[t].props[i].kind;
            var id := RowId(t, st.r.value);
            match kind
            case One(_, true) => GetProperty(st.s, id, i, kind) == Ok(Null)
            case One(ScalarElem(base), false) =>
              && v.allowMissing
              && GetProperty(st.s, id, i, kind)
                 == Ok(Prim(match base
                            case IntType => IntVal(0)
                            case BoolType => BoolVal(false)
                            case StringType => StringVal("")
                            case DataType => DataVal([])
                            case DateType => DateVal(0, 0)
                            case FloatType => FloatVal(Finite(0.0))
                            case DoubleType => DoubleVal(Finite(0.0))))
            case One(LinkElem(_), false) => v.allowMissing && Get(st.s, id, i).NullCell?
            case Many(_) => Items(st.s, id, i) == []
            case LinkingObjects(_, _) => true
  {
    var st := Create(cfg, s, t, v, current);
    UpsertReadsBack(cfg, s, t, v, current);
    HoldsAt(cfg.schema, s, st.s, t, st.r.value, v, 0, i);
  }

  /** A scalar is accepted exactly where the column is of its own type. */
  lemma ScalarIsAccepted(cfg: Config, s: State, id: RowId, c: nat, base: Base, nullable: bool, x: Scalar)
    ensures SetPropertyImpl(cfg, s, id, c, One(ScalarElem(base), nullable), Prim(x), false).r.Ok?
       <==> match x
            case IntVal(_) => base.IntType?
            case BoolVal(_) => base.BoolType?
            case StringVal(_) => base.StringType?
            case DataVal(_) => base.DataType?
            case DateVal(_, _) => base.DateType?
            case FloatVal(_) => base.FloatType?
            case DoubleVal(_) => base.DoubleType?
  {
  }

  /** Under UpdateModified writing a scalar over itself writes nothing, unless it is a NaN, which is written again. */
  lemma OnlyNaNIsRewritten(cfg: Config, s: State, id: RowId, c: nat, base: Base, nullable: bool, x: Scalar)
    requires cfg.policy.UpdateModified? && Get(s, id, c) == Val(x) && Matches(base, x)
    ensures var st := SetPropertyImpl(cfg, s, id, c, One(ScalarElem(base), nullable), Prim(x), false);
            && st.r.Ok?
            && (x == FloatVal(NaN) || x == DoubleVal(NaN) ==> |st.s.log| == |s.log| + 1)
            && (x != FloatVal(NaN) && x != DoubleVal(NaN) ==> st.s == s)
  {
  }

  /** Writing back what was read leaves all rows as they are under every policy, and under UpdateModified
      writes nothing unless the value is a NaN.
   */
  lemma GetThenSetChangesNothing(cfg: Config, s: State, id: RowId, c: nat)
    requires WellFormed(cfg.schema, s) && id in s.rows && c < |cfg.schema[id.t].props|
    requires GetProperty(s, id, c, cfg.schema[id.t].props[c].kind).Ok?
    requires !cfg.schema[id.t].props[c].kind.LinkingObjects?
    ensures var kind := cfg.schema[id.t].props[c].kind;
            var v := GetProperty(s, id, c, kind).value;
            var st := SetPropertyImpl(cfg, s, id, c, kind, v, false);
            && st.r.Ok? && st.s.rows == s.rows && st.s.next == s.next
            && (cfg.policy.UpdateModified? ==> (st.s == s <==> !(v.Prim? && IsNaN(v.x))))
  {
    var kind := cfg.schema[id.t].props[c].kind;
    assert CellOk(s.rows.Keys, kind, Get(s, id, c));
    var row := s.rows[id];
    assert row[c := row[c]] == row;
    assert s.rows[id := row] == s.rows;
  }

  /** Fields that name no persisted property make no difference: a computed property is none. */
  lemma OtherFieldsAreIgnored(cfg: Config, s: State, t: TypeName, v: Value, v': Value, current: Option<ObjKey>)
    requires t in cfg.schema && v.Dict? && v'.Dict? && v.allowMissing == v'.allowMissing
    requires forall i | 0 <= i < |cfg.schema[t].props| && !cfg.schema[t].props[i].kind.LinkingObjects? ::
               Lookup(v, cfg.schema[t].props[i].name) == Lookup(v', cfg.schema[t].props[i].name)
    ensures Create(cfg, s, t, v, current) == Create(cfg, s, t, v', current)
  {
    var o := Open(cfg, s, t, v, current);
    assert o == Open(cfg, s, t, v', current);
    if o.r.Ok? {
      OtherFieldsUnread(cfg, o.s, t, o.r.value, v, v', 0);
    }
  }

  lemma {:induction false} OtherFieldsUnread(cfg: Config, s: State, t: TypeName, row: Opened, v: Value, v': Value,
                                             i: nat)
    requires t in cfg.schema && v.Dict? && v'.Dict? && v.allowMissing == v'.allowMissing
    requires i <= |cfg.schema[t].props|
    requires forall j | i <= j < |cfg.schema[t].props| && !cfg.schema[t].props[j].kind.LinkingObjects? ::
               Lookup(v, cfg.schema[t].props[j].name) == Lookup(v', cfg.schema[t].props[j].name)
    ensures Populate(cfg, s, t, row, v, i) == Populate(cfg, s, t, row, v', i)
    decreases |cfg.schema[t].props| - i
  {
    hide SetPropertyImpl;
    if i < |cfg.schema[t].props| {
      assert PopulateOne(cfg, s, t, row, v, i) == PopulateOne(cfg, s, t, row, v', i);
      OtherFieldsUnread(cfg, PopulateOne(cfg, s, t, row, v, i).s, t, row, v, v', i + 1);
    }
  }

  /** How often a cell links to a row: once for a link, and once for every position of a list. */
  function LinkCount(x: Cell, key: ObjKey): nat {
    match x
    case Link(k) => if k == key then 1 else 0
    case List(items) => |set j | 0 <= j < |items| && items[j] == Link(key)|
    case _ => 0
  }

  lemma {:induction false} CountPositions(items: seq<Cell>, x: Cell)
    ensures multiset(items)[x] == |set j | 0 <= j < |items| && items[j] == x|
    decreases |items|
  {
    if items != [] {
      var n := |items| - 1;
      var most, last := items[..n], items[n];
      CountPositions(most, x);
      assert items == most + [last];
      PositionsMore(most, last, x);
    }
  }

  lemma PositionsMore(items: seq<Cell>, last: Cell, x: Cell)
    ensures |set j | 0 <= j < |items + [last]| && (items + [last])[j] == x|
         == |set j | 0 <= j < |items| && items[j] == x| + if last == x then 1 else 0
  {
    var less := set j | 0 <= j < |items| && items[j] == x;
    assert (set j | 0 <= j < |items + [last]| && (items + [last])[j] == x)
        == less + if last == x then {|items|} else {};
  }

  /** Reading linking objects gives the rows of the origin type, each as often as its origin column links to this row,
      and nothing else.
   */
  lemma LinkingObjectsLinkHere(sch: Schema, s: State, id: RowId, c: nat, origin: TypeName, originColumn: nat, k: ObjKey)
    requires WellFormed(sch, s)
    ensures var r := GetProperty(s, id, c, LinkingObjects(origin, originColumn));
            && r.Ok? && r.value.Vec?
            && multiset(r.value.elems)[Managed(RowId(origin, k))]
               == LinkCount(Get(s, RowId(origin, k), originColumn), id.key)
            && forall x | x in r.value.elems :: exists k' :: x == Managed(RowId(origin, k'))
  {
    BacklinksAreLinks(s, origin, originColumn, id.key, 0, k);
    BacklinksAreOrigins(s, origin, originColumn, id.key, 0);
    var x := Get(s, RowId(origin, k), originColumn);
    if x.List? {
      CountPositions(x.items, Link(id.key));
    }
  }

  lemma {:induction false} BacklinksAreOrigins(s: State, origin: TypeName, c: nat, key: ObjKey, from: ObjKey)
    ensures forall x | x in Backlinks(s, origin, c, key, from) :: exists k :: x == Managed(RowId(origin, k))
    decreases s.next - from
  {
    if from < s.next {
      BacklinksAreOrigins(s, origin, c, key, from + 1);
    }
  }

  /** Reading linking objects gives each row of the origin as often as its column links to this one. */
  lemma {:induction false} BacklinksAreLinks(s: State, origin: TypeName, c: nat, key: ObjKey, from: ObjKey, k: ObjKey)
    ensures multiset(Backlinks(s, origin, c, key, from))[Managed(RowId(origin, k))]
         == if from <= k < s.next then LinksIn(Get(s, RowId(origin, k), c), key) else 0
    decreases s.next - from
  {
    if from < s.next {
      BacklinksAreLinks(s, origin, c, key, from + 1, k);
      var n := LinksIn(Get(s, RowId(origin, from), c), key);
      Repeated(Managed(RowId(origin, from)), n, Managed(RowId(origin, k)));
    }
  }

  lemma {:induction false} Repeated(x: Value, n: nat, y: Value)
    ensures multiset(seq(n, _ => x))[y] == if x == y then n else 0
    decreases n
  {
    if n > 0 {
      Repeated(x, n - 1, y);
      assert seq(n, _ => x) == seq(n - 1, _ => x) + [x];
    }
  }

  /** Looking up a key succeeds exactly if it is null and the column nullable, or a scalar of the column's type. Then
      it gives a row exactly if that row holds the key; null finds the row whose key is null.
   */
  lemma LookupFindsTheRow(sch: Schema, s: State, t: TypeName, v: Value, k: ObjKey)
    requires WellFormed(sch, s) && Unique(sch, s) && t in sch
    ensures var r := GetForPrimaryKey(sch, s, t, v);
            && (r.Ok? <==> HasKey(sch, t) && UsableKey(sch[t].props[sch[t].pk.value].kind, Some(v)))
            && (r == Ok(Some(k)) <==>
                  && HasKey(sch, t) && RowId(t, k) in s.rows && (v.Null? || v.Prim?)
                  && Get(s, RowId(t, k), sch[t].pk.value) == if v.Prim? then Val(v.x) else NullCell)
            && (r.Err? ==>
                  r.error == if !HasKey(sch, t) then MissingPrimaryKey else if v.Null? then NullPrimaryKey else BadCast)
  {
    if HasKey(sch, t) && RowId(t, k) in s.rows {
      var c := sch[t].pk.value;
      var x := Get(s, RowId(t, k), c);
      assert PrimaryKind(sch[t].props[c].kind) && CellOk(s.rows.Keys, sch[t].props[c].kind, x);
      if (v.Null? || v.Prim?) && x == (if v.Prim? then Val(v.x) else NullCell) {
        FindNamed(sch, s, t, k, x);
      }
    }
  }

  /** After a successful create the getter gives the key that was supplied, else the default, else null. */
  lemma KeyReadsBack(cfg: Config, s: State, t: TypeName, v: Value, current: Option<ObjKey>)
    requires WellFormed(cfg.schema, s) && HasKey(cfg.schema, t)
    requires Create(cfg, s, t, v, current).r.Ok?
    ensures var st := Create(cfg, s, t, v, current);
            var c := cfg.schema[t].pk.value;
            var prop := cfg.schema[t].props[c];
            && v.Dict?
            && GetProperty(st.s, RowId(t, st.r.value), c, prop.kind)
               == Ok(match Source(v, prop) case Some(x) => x case None => Null)
  {
    hide Populate, Unique;
    var o := Open(cfg, s, t, v, current);
    var c := cfg.schema[t].pk.value;
    OpenSafe(cfg, s, t, v, current);
    var id := RowId(t, o.r.value.key);
    if cfg.policy.ForceCreate? {
      OpenedKey(cfg, s, t, v, current);
      PopulateKey(cfg, o.s, t, o.r.value, v, 0);
    } else {
      PopulateSafe(cfg, o.s, t, o.r.value, v, 0);
      assert NameOf(cfg.schema, o.s, id) == Keyed(t, KeyOf(cfg.schema, t, v));
    }
    assert PrimaryKind(cfg.schema[t].props[c].kind);
  }

  // ---- Policies after a failure -----------------------------------------------------------------

  /** A value that cannot be enumerated is refused by a list, which stays as it is under UpdateModified and is cleared
      under the other policies.
   */
  lemma UnfitListIsRefused(cfg: Config, s: State, id: RowId, c: nat, elem: Elem, v: Value)
    requires id in s.rows && c < |s.rows[id]| && (elem.LinkElem? ==> elem.target in cfg.schema)
    requires !v.Vec? && !v.Null? && v != ListOf(Loc(id, c))
    ensures var st := AssignList(cfg, s, id, c, elem, v);
            && st.r == Err(BadCast)
            && (if cfg.policy.UpdateModified? then st.s == s else Items(st.s, id, c) == [])
  {
  }

  /** A list that a nested object has shortened meanwhile ends the assignment out of bounds. */
  lemma ShortenedListIsRefused(cfg: Config, s: State, id: RowId, c: nat, elem: Elem, v: Value, i: nat, sz: nat)
    requires (elem.LinkElem? ==> elem.target in cfg.schema) && v.Vec? && i <= |v.elems| && |Items(s, id, c)| < sz
    ensures |Items(s, id, c)| <= i < |v.elems| && i < sz ==>
              AssignFrom(cfg, s, id, c, elem, v, i, sz) == Step(s, Err(OutOfBoundsIndex))
    ensures |v.elems| < sz ==> Trim(s, id, c, |v.elems|, sz) == Step(s, Err(OutOfBoundsIndex))
  {
  }

  /** Reading a link that is required and has not been set fails. */
  lemma UnsetLinkIsUnreadable(s: State, id: RowId, c: nat, target: TypeName)
    ensures !Get(s, id, c).Link? ==> GetProperty(s, id, c, One(LinkElem(target), false)) == Err(InvalidObject)
  {
  }

  /** A null default of a link, unlike a supplied null, is not written. */
  lemma NullDefaultOfLinkIsNotWritten(cfg: Config, s: State, t: TypeName, row: Opened, v: Value, i: nat)
    requires t in cfg.schema && i < |cfg.schema[t].props| && v.Dict? && row.created
    requires var prop := cfg.schema[t].props[i];
             && prop.kind.One? && prop.kind.elem.LinkElem? && prop.kind.nullable && prop.default == Some(Null)
    ensures var prop := cfg.schema[t].props[i];
            && (prop.name !in v.fields ==> PopulateOne(cfg, s, t, row, v, i) == Step(s, Ok(())))
            && (prop.name in v.fields && v.fields[prop.name].Null? && !cfg.policy.UpdateModified?
                && cfg.schema[t].pk != Some(i) ==>
                  |PopulateOne(cfg, s, t, row, v, i).s.log| == |s.log| + 1)
  {
  }

  /** Where assigning a list fails, the policies may leave different stores: if the first element does not have the
      type of the list, UpdateAll has cleared the list and UpdateModified has left it.
   */
  lemma FailedPoliciesDiffer(all: Config, modified: Config, s: State, id: RowId, c: nat, base: Base, v: Value)
    requires all.policy.UpdateAll? && modified.policy.UpdateModified?
    requires id in s.rows && c < |s.rows[id]| && Items(s, id, c) != []
    requires v.Vec? && v.elems != [] && !(v.elems[0].Prim? && Matches(base, v.elems[0].x))
    ensures var st1 := AssignList(all, s, id, c, ScalarElem(base), v);
            var st2 := AssignList(modified, s, id, c, ScalarElem(base), v);
            && st1.r == st2.r == Err(BadCast)
            && Items(st1.s, id, c) == [] && st2.s == s
  {
    hide Create;
    assert AssignOne(all, Clear(s, id, c), id, c, ScalarElem(base), v, 0, 0) == Step(Clear(s, id, c), Err(BadCast));
    assert AssignOne(modified, s, id, c, ScalarElem(base), v, 0, |Items(s, id, c)|) == Step(s, Err(BadCast));
  }
}
