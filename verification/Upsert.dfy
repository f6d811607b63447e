/** What creating and updating objects from nested values does to the store: the specification of
    the methods of class Realm, written as functions from a state to a state and a result.

    A failing call keeps the writes it made before it failed.
 */
module Upsert {
  import opened Store

  datatype Policy = ForceCreate | UpdateAll | UpdateModified

  /** How a call is made. An accessor context that unboxes an object may pass on the key of the object that is
      there already, or drop it.
   */
  datatype Config = Config(schema: Schema, policy: Policy, migrating: bool, passesKey: bool)

  datatype Step<+T> = Step(s: State, r: Result<T>)

  /** The row a create works on, whether it is new, and whether its key column is to be left alone. */
  datatype Opened = Opened(key: ObjKey, created: bool, skipPrimary: bool)

  function Lookup(v: Value, name: string): Option<Value>
    requires v.Dict?
  {
    if name in v.fields then Some(v.fields[name]) else None
  }

  // ---- Primary keys -----------------------------------------------------------------------------

  /** Whether a value, or the lack of one, can be the key of a column: null and nothing if it is nullable, otherwise
      an integer or a string as the column asks.
   */
  predicate UsableKey(kind: Kind, v: Option<Value>)
    requires PrimaryKind(kind)
  {
    match v
    case None => kind.nullable
    case Some(Null) => kind.nullable
    case Some(Prim(IntVal(_))) => kind.elem.base.IntType?
    case Some(Prim(StringVal(_))) => kind.elem.base.StringType?
    case _ => false
  }

  /** The cell in which a usable key is stored. */
  function KeyCell(v: Option<Value>): Cell {
    match v
    case Some(Prim(x)) => Val(x)
    case _ => NullCell
  }

  /** The value a property is set from when its row is new: supplied, else the default. */
  function Source(v: Value, prop: Property): (r: Option<Value>)
    requires v.Dict?
    ensures r.Some? ==> Nest(r.value) < Nest(v) || r.value < v
  {
    if prop.name in v.fields then Some(v.fields[prop.name])
    else match prop.default
      case Some(d) => Some(d)
      case None => None
  }

  /** The key cell a boxed primary key stands for. */
  function UnboxPrimary(prop: Property, v: Value): (r: Result<Cell>)
    requires PrimaryKind(prop.kind)
    ensures r.Ok? <==> UsableKey(prop.kind, Some(v))
    ensures r.Ok? ==> r.value == KeyCell(Some(v))
  {
    match v
    case Null => if prop.kind.nullable then Ok(NullCell) else Err(NullPrimaryKey)
    case Prim(x) => if Matches(prop.kind.elem.base, x) then Ok(Val(x)) else Err(BadCast)
    case _ => Err(BadCast)
  }

  /** The key cell of a dictionary: supplied, else the default, else null. */
  function PrimaryCell(sch: Schema, t: TypeName, v: Value): (r: Result<Cell>)
    requires HasKey(sch, t)
    ensures var prop := sch[t].props[sch[t].pk.value];
            && (r.Ok? <==> v.Dict? && UsableKey(prop.kind, Source(v, prop)))
            && (r.Ok? ==> r.value == KeyCell(Source(v, prop)))
  {
    var prop := sch[t].props[sch[t].pk.value];
    if !v.Dict? then Err(BadCast)
    else
      match Lookup(v, prop.name)
      case Some(x) => UnboxPrimary(prop, x)
      case None =>
        match prop.default
        case Some(d) => UnboxPrimary(prop, d)
        case None => if prop.kind.nullable then Ok(NullCell) else Err(MissingPropertyValue)
  }

  function FindRow(sch: Schema, s: State, t: TypeName, pk: Cell): Option<ObjKey>
    requires HasKey(sch, t)
  {
    FindFrom(s, t, sch[t].pk.value, pk, 0)
  }

  function GetForPrimaryKey(sch: Schema, s: State, t: TypeName, v: Value): Result<Option<ObjKey>>
    requires t in sch
  {
    if sch[t].pk.None? then Err(MissingPrimaryKey)
    else
      match UnboxPrimary(sch[t].props[sch[t].pk.value], v)
      case Err(e) => Err(e)
      case Ok(pk) => Ok(FindRow(sch, s, t, pk))
  }

  /** Get the existing row, or create one. */
  function Open(cfg: Config, s: State, t: TypeName, v: Value, current: Option<ObjKey>): Step<Opened>
    requires t in cfg.schema
  {
    var os := cfg.schema[t];
    if os.pk.Some? then
      match PrimaryCell(cfg.schema, t, v)
      case Err(e) => Step(s, Err(e))
      case Ok(pk) =>
        match FindRow(cfg.schema, s, t, pk)
        case Some(key) =>
          if !cfg.policy.ForceCreate? then Step(s, Ok(Opened(key, false, true)))
          else if cfg.migrating then Step(AddRow(s, t, InitialRow(os)), Ok(Opened(s.next, true, false)))
          else Step(s, Err(DuplicatePrimaryKey))
        case None =>
          Step(AddRow(s, t, InitialRow(os)[os.pk.value := pk]), Ok(Opened(s.next, true, true)))
    else if cfg.policy.UpdateModified? && current.Some? then
      if RowId(t, current.value) in s.rows then Step(s, Ok(Opened(current.value, false, true)))
      else Step(s, Err(KeyNotFound))
    else
      Step(AddRow(s, t, InitialRow(os)), Ok(Opened(s.next, true, true)))
  }

  // ---- Creating objects -------------------------------------------------------------------------

  function Create(cfg: Config, s: State, t: TypeName, v: Value, current: Option<ObjKey>): Step<ObjKey>
    requires t in cfg.schema
    decreases Nest(v), v, 3, 0
  {
    var o := Open(cfg, s, t, v, current);
    match o.r
    case Err(e) => Step(o.s, Err(e))
    case Ok(row) =>
      var p := Populate(cfg, o.s, t, row, v, 0);
      match p.r
      case Err(e) => Step(p.s, Err(e))
      case Ok(_) => Step(p.s, Ok(row.key))
  }

  /** Set the properties from index i on. */
  function Populate(cfg: Config, s: State, t: TypeName, row: Opened, v: Value, i: nat): Step<()>
    requires t in cfg.schema && i <= |cfg.schema[t].props|
    decreases Nest(v), v, 2, |cfg.schema[t].props| - i
  {
    if i == |cfg.schema[t].props| then Step(s, Ok(()))
    else
      var p := PopulateOne(cfg, s, t, row, v, i);
      if p.r.Err? then p else Populate(cfg, p.s, t, row, v, i + 1)
  }

  /** Set one property. A computed property, which has no column of its own, is not among those a create visits. */
  function PopulateOne(cfg: Config, s: State, t: TypeName, row: Opened, v: Value, i: nat): Step<()>
    requires t in cfg.schema && i < |cfg.schema[t].props|
    decreases Nest(v), v, 1, 0
  {
    var isPrimary := cfg.schema[t].pk == Some(i);
    var prop := cfg.schema[t].props[i];
    if prop.kind.LinkingObjects? || (row.skipPrimary && isPrimary) then Step(s, Ok(()))
    else if !v.Dict? then Step(s, Err(BadCast))
    else
      match Lookup(v, prop.name)
      case Some(x) =>
        if RejectsNull(prop.kind) && x.Null? && (isPrimary || !v.allowMissing) then
          Step(s, Err(MissingPropertyValue))
        else
          SetPropertyImpl(cfg, s, RowId(t, row.key), i, prop.kind, x, false)
      case None =>
        if !row.created then Step(s, Ok(()))
        else if RejectsNull(prop.kind) && (prop.default.None? || prop.default.value.Null?)
                && (isPrimary || !v.allowMissing) then
          Step(s, Err(MissingPropertyValue))
        else if prop.default.None? then Step(s, Ok(()))
        else SetPropertyImpl(cfg, s, RowId(t, row.key), i, prop.kind, prop.default.value, true)
  }

  predicate RejectsNull(kind: Kind) {
    !IsNullable(kind) && !IsArray(kind)
  }

  // ---- Setting properties -----------------------------------------------------------------------

  function SetPropertyImpl(cfg: Config, s: State, id: RowId, c: nat, kind: Kind, v: Value, isDefault: bool): Step<()>
    requires TargetsIn(kind, cfg.schema.Keys)
    decreases Nest(v), v, 6, 0
  {
    if IsNullable(kind) && v.Null? then
      if cfg.policy.UpdateModified? && Get(s, id, c).NullCell? then Step(s, Ok(()))
      else if kind.elem.LinkElem? && isDefault then Step(s, Ok(()))
      else Step(Assign(s, id, c, NullCell), Ok(()))
    else
      match kind
      case LinkingObjects(_, _) => Step(s, Err(ReadOnlyProperty))
      case Many(elem) => AssignList(cfg, s, id, c, elem, v)
      case One(elem, _) =>
        var before := Get(s, id, c);
        var u := Unbox(cfg, s, elem, v, before, false);
        match u.r
        case Err(e) => Step(u.s, Err(e))
        case Ok(x) =>
          if !cfg.policy.UpdateModified? || Differs(before, x) then Step(Assign(u.s, id, c, x), Ok(()))
          else Step(u.s, Ok(()))
  }

  /** The slot a value stands for; a dictionary is created or updated first. */
  function Unbox(cfg: Config, s: State, elem: Elem, v: Value, current: Cell, inList: bool): Step<Cell>
    requires elem.LinkElem? ==> elem.target in cfg.schema
    decreases Nest(v), v, 4, 0
  {
    match elem
    case ScalarElem(base) =>
      if v.Prim? && Matches(base, v.x) then Step(s, Ok(Val(v.x))) else Step(s, Err(BadCast))
    case LinkElem(target) =>
      if v.Managed? then
        if inList && v.id.t != target then Step(s, Err(InvalidObject))
        else if RowId(target, v.id.key) !in s.rows then Step(s, Err(KeyNotFound))
        else Step(s, Ok(Link(v.id.key)))
      else
        var o := Create(cfg, s, target, v, Passed(cfg, current));
        match o.r
        case Err(e) => Step(o.s, Err(e))
        case Ok(key) => Step(o.s, Ok(Link(key)))
  }

  /** The current object as it reaches a nested create. */
  function Passed(cfg: Config, current: Cell): Option<ObjKey> {
    if cfg.passesKey && current.Link? then Some(current.key) else None
  }

  // ---- Assigning lists --------------------------------------------------------------------------

  function AssignList(cfg: Config, s: State, id: RowId, c: nat, elem: Elem, v: Value): Step<()>
    requires elem.LinkElem? ==> elem.target in cfg.schema
    decreases Nest(v), v, 5, if v.Vec? then |v.elems| + 1 else 0
  {
    if v == ListOf(Loc(id, c)) then Step(s, Ok(()))
    else if v.Null? then Step(Clear(s, id, c), Ok(()))
    else if !v.Vec? then Step(Prepared(cfg, s, id, c), Err(BadCast))
    else
      var sz := Reusable(cfg, s, id, c);
      var l := AssignFrom(cfg, Prepared(cfg, s, id, c), id, c, elem, v, 0, sz);
      if l.r.Err? then l else Trim(l.s, id, c, |v.elems|, sz)
  }

  /** The list the element loop starts from: as it is, or emptied. */
  function Prepared(cfg: Config, s: State, id: RowId, c: nat): State {
    if cfg.policy.UpdateModified? then s else Clear(s, id, c)
  }

  /** The number of items the loop may overwrite in place. */
  function Reusable(cfg: Config, s: State, id: RowId, c: nat): nat {
    if cfg.policy.UpdateModified? then |Items(s, id, c)| else 0
  }

  /** Assign the elements from index i on: in place below sz, appended from sz on. */
  function AssignFrom(cfg: Config, s: State, id: RowId, c: nat, elem: Elem, v: Value, i: nat, sz: nat): Step<()>
    requires elem.LinkElem? ==> elem.target in cfg.schema
    requires v.Vec? && i <= |v.elems|
    decreases Nest(v), v, 5, |v.elems| - i
  {
    if i == |v.elems| then Step(s, Ok(()))
    else
      var a := AssignOne(cfg, s, id, c, elem, v, i, sz);
      if a.r.Err? then a else AssignFrom(cfg, a.s, id, c, elem, v, i + 1, sz)
  }

  function AssignOne(cfg: Config, s: State, id: RowId, c: nat, elem: Elem, v: Value, i: nat, sz: nat): Step<()>
    requires elem.LinkElem? ==> elem.target in cfg.schema
    requires v.Vec? && i < |v.elems|
    decreases Nest(v), v, 4, 1
  {
    if i < sz && i >= |Items(s, id, c)| then Step(s, Err(OutOfBoundsIndex))
    else
      var before := if i < sz then Items(s, id, c)[i] else NullCell;
      var u := Unbox(cfg, s, elem, v.elems[i], before, true);
      match u.r
      case Err(e) => Step(u.s, Err(e))
      case Ok(x) => PlaceItem(u.s, id, c, before, x, i, sz)
  }

  /** Overwrite item i if it differs from what was there before, or append beyond the original size. */
  function PlaceItem(s: State, id: RowId, c: nat, before: Cell, x: Cell, i: nat, sz: nat): Step<()> {
    if i >= sz then Step(Append(s, id, c, x), Ok(()))
    else if !Differs(before, x) then Step(s, Ok(()))
    else if i >= |Items(s, id, c)| then Step(s, Err(OutOfBoundsIndex))
    else Step(SetSlot(s, id, c, i, x), Ok(()))
  }

  /** Remove the slots from sz - 1 down to index. */
  function Trim(s: State, id: RowId, c: nat, index: nat, sz: nat): Step<()>
    decreases sz
  {
    if index >= sz then Step(s, Ok(()))
    else if sz - 1 >= |Items(s, id, c)| then Step(s, Err(OutOfBoundsIndex))
    else Trim(RemoveSlot(s, id, c, sz - 1), id, c, index, sz - 1)
  }

  // ---- Reading properties -----------------------------------------------------------------------

  /** How often a cell links to the row with the given key of its target type. */
  function LinksIn(x: Cell, key: ObjKey): nat {
    match x
    case Link(k) => if k == key then 1 else 0
    case List(items) => multiset(items)[Link(key)]
    case _ => 0
  }

  /** The rows of a type that link to a row through one of their columns, once for each link, in table order. */
  function Backlinks(s: State, origin: TypeName, c: nat, key: ObjKey, k: ObjKey): (rows: seq<Value>)
    ensures forall v | v in rows :: v.Managed?
    decreases s.next - k
  {
    if k >= s.next then []
    else
      var id := RowId(origin, k);
      seq(LinksIn(Get(s, id, c), key), _ => Managed(id)) + Backlinks(s, origin, c, key, k + 1)
  }

  /** The boxed value of a property. */
  function GetProperty(s: State, id: RowId, c: nat, kind: Kind): Result<Value> {
    var x := Get(s, id, c);
    match kind
    case LinkingObjects(origin, column) => Ok(Vec(Backlinks(s, origin, column, id.key, 0)))
    case Many(_) => Ok(ListOf(Loc(id, c)))
    case One(elem, nullable) =>
      if nullable && x.NullCell? then Ok(Null)
      else
        match elem
        case ScalarElem(_) => if x.Val? then Ok(Prim(x.x)) else Err(InvalidObject)
        case LinkElem(target) => if x.Link? then Ok(Managed(RowId(target, x.key))) else Err(InvalidObject)
  }
}
