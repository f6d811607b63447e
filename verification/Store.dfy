/** Tables, rows and cells of a Realm file, its schema, and the values an accessor context hands over.

    Object keys come from one counter, and every write the engine issues is recorded in a log.
 */
module Store {

  datatype Option<+T> = None | Some(value: T)

  datatype Error =
    | BadCast
    | MissingPropertyValue
    | NullPrimaryKey
    | DuplicatePrimaryKey
    | MissingPrimaryKey
    | ModifyPrimaryKey
    | ReadOnlyProperty
    | InvalidProperty
    | KeyNotFound
    | InvalidObject
    | OutOfBoundsIndex

  datatype Result<+T> = Ok(value: T) | Err(error: Error)

  type TypeName = string
  type ObjKey = nat

  datatype RowId = RowId(t: TypeName, key: ObjKey)
  datatype Loc = Loc(id: RowId, c: nat)

  // ---- Scalars ----------------------------------------------------------------------------------

  datatype Number = Finite(x: real) | NaN

  datatype Base = IntType | BoolType | StringType | DataType | DateType | FloatType | DoubleType

  datatype Scalar =
    | IntVal(i: int)
    | BoolVal(b: bool)
    | StringVal(str: string)
    | DataVal(bytes: seq<bv8>)
    | DateVal(seconds: int, nanoseconds: int)
    | FloatVal(f: Number)
    | DoubleVal(d: Number)

  /** Whether unboxing a value to a column of the given base type succeeds. */
  predicate Matches(base: Base, x: Scalar) {
    match base
    case IntType => x.IntVal?
    case BoolType => x.BoolVal?
    case StringType => x.StringVal?
    case DataType => x.DataVal?
    case DateType => x.DateVal?
    case FloatType => x.FloatVal?
    case DoubleType => x.DoubleVal?
  }

  predicate IsNaN(x: Scalar) {
    (x.FloatVal? && x.f.NaN?) || (x.DoubleVal? && x.d.NaN?)
  }

  function Zero(base: Base): Scalar {
    match base
    case IntType => IntVal(0)
    case BoolType => BoolVal(false)
    case StringType => StringVal("")
    case DataType => DataVal([])
    case DateType => DateVal(0, 0)
    case FloatType => FloatVal(Finite(0.0))
    case DoubleType => DoubleVal(Finite(0.0))
  }

  // ---- Schema and input values ------------------------------------------------------------------

  /** What one slot holds: a scalar, or a link to a row of the target type. */
  datatype Elem = ScalarElem(base: Base) | LinkElem(target: TypeName)

  datatype Kind =
    | One(elem: Elem, nullable: bool)
    | Many(elem: Elem)
    | LinkingObjects(origin: TypeName, originColumn: nat)

  predicate IsArray(kind: Kind) {
    !kind.One?
  }

  predicate IsNullable(kind: Kind) {
    kind.One? && kind.nullable
  }

  /** A value given to the engine; a dictionary may or may not be allowed to leave required fields out. */
  datatype Value =
    | Null
    | Prim(x: Scalar)
    | Managed(id: RowId)
    | ListOf(loc: Loc)
    | Dict(fields: map<string, Value>, allowMissing: bool)
    | Vec(elems: seq<Value>)

  /** A value that contains no dictionary, so unboxing it creates no object. */
  predicate Flat(v: Value) {
    match v
    case Dict(_, _) => false
    case Vec(elems) => forall e | e in elems :: Flat(e)
    case _ => true
  }

  /** First component of the termination measure: flat values never recur into object creation. */
  function Nest(v: Value): nat {
    if Flat(v) then 0 else 1
  }

  type FlatValue = v: Value | Flat(v) witness Null

  datatype Property = Property(name: string, kind: Kind, default: Option<FlatValue>)

  datatype ObjectSchema = ObjectSchema(props: seq<Property>, pk: Option<nat>)

  /** A primary key is a column of type int or string, and link targets are types of the schema. */
  predicate SchemaOk(sch: map<TypeName, ObjectSchema>) {
    forall t | t in sch ::
      && (sch[t].pk.Some? ==>
            && sch[t].pk.value < |sch[t].props|
            && PrimaryKind(sch[t].props[sch[t].pk.value].kind))
      && (forall i | 0 <= i < |sch[t].props| :: TargetsIn(sch[t].props[i].kind, sch.Keys))
  }

  predicate PrimaryKind(kind: Kind) {
    kind.One? && kind.elem.ScalarElem? && (kind.elem.base.IntType? || kind.elem.base.StringType?)
  }

  predicate TargetsIn(kind: Kind, types: set<TypeName>) {
    kind.LinkingObjects? || kind.elem.ScalarElem? || kind.elem.target in types
  }

  type Schema = sch: map<TypeName, ObjectSchema> | SchemaOk(sch) witness map[]

  // ---- Cells, rows, state -----------------------------------------------------------------------

  datatype Cell = NullCell | Val(x: Scalar) | Link(key: ObjKey) | List(items: seq<Cell>)

  type Row = seq<Cell>

  /** What was written, with the value that was there before. */
  datatype Write =
    | Created(id: RowId, row: Row)
    | Assigned(loc: Loc, before: Cell, after: Cell)
    | SlotAssigned(loc: Loc, index: nat, before: Cell, after: Cell)
    | Appended(loc: Loc, item: Cell)
    | Removed(loc: Loc, index: nat)
    | Cleared(loc: Loc)

  datatype State = State(rows: map<RowId, Row>, next: ObjKey, log: seq<Write>)

  function Get(s: State, id: RowId, c: nat): Cell {
    if id in s.rows && c < |s.rows[id]| then s.rows[id][c] else NullCell
  }

  function Items(s: State, id: RowId, c: nat): seq<Cell> {
    var x := Get(s, id, c);
    if x.List? then x.items else []
  }

  /** Inequality of the accessor layer: a NaN differs from everything, itself included. */
  predicate Differs(x: Cell, y: Cell) {
    x != y || (x.Val? && IsNaN(x.x))
  }

  /** Put x into cell c of row id and record w. */
  function Put(s: State, id: RowId, c: nat, x: Cell, w: Write): State {
    if id in s.rows && c < |s.rows[id]| then
      State(s.rows[id := s.rows[id][c := x]], s.next, s.log + [w])
    else
      s.(log := s.log + [w])
  }

  function Assign(s: State, id: RowId, c: nat, x: Cell): State {
    Put(s, id, c, x, Assigned(Loc(id, c), Get(s, id, c), x))
  }

  function SetSlot(s: State, id: RowId, c: nat, index: nat, x: Cell): State
    requires index < |Items(s, id, c)|
  {
    var items := Items(s, id, c);
    Put(s, id, c, List(items[index := x]), SlotAssigned(Loc(id, c), index, items[index], x))
  }

  function Append(s: State, id: RowId, c: nat, x: Cell): State {
    Put(s, id, c, List(Items(s, id, c) + [x]), Appended(Loc(id, c), x))
  }

  function RemoveSlot(s: State, id: RowId, c: nat, index: nat): State
    requires index < |Items(s, id, c)|
  {
    var items := Items(s, id, c);
    Put(s, id, c, List(items[..index] + items[index + 1..]), Removed(Loc(id, c), index))
  }

  /** Clearing an empty list writes nothing. */
  function Clear(s: State, id: RowId, c: nat): State {
    if Items(s, id, c) == [] then s else Put(s, id, c, List([]), Cleared(Loc(id, c)))
  }

  function Initial(kind: Kind): Cell {
    match kind
    case One(ScalarElem(base), nullable) => if nullable then NullCell else Val(Zero(base))
    case One(LinkElem(_), _) => NullCell
    case Many(_) => List([])
    case LinkingObjects(_, _) => NullCell
  }

  function InitialRow(os: ObjectSchema): (row: Row)
    ensures |row| == |os.props|
    ensures forall c | 0 <= c < |row| :: row[c] == Initial(os.props[c].kind)
  {
    seq(|os.props|, c requires 0 <= c < |os.props| => Initial(os.props[c].kind))
  }

  /** A new row of type t under the next free key. */
  function AddRow(s: State, t: TypeName, row: Row): State {
    State(s.rows[RowId(t, s.next) := row], s.next + 1, s.log + [Created(RowId(t, s.next), row)])
  }

  /** The first row of type t, from key k on, whose cell c equals x. */
  function FindFrom(s: State, t: TypeName, c: nat, x: Cell, k: ObjKey): (r: Option<ObjKey>)
    ensures r.Some? ==> k <= r.value < s.next && RowId(t, r.value) in s.rows && Get(s, RowId(t, r.value), c) == x
    ensures forall j :: k <= j < (if r.Some? then r.value else s.next) && RowId(t, j) in s.rows
                        ==> Get(s, RowId(t, j), c) != x
    decreases s.next - k
  {
    if k >= s.next then None
    else if RowId(t, k) in s.rows && Get(s, RowId(t, k), c) == x then Some(k)
    else FindFrom(s, t, c, x, k + 1)
  }

  // ---- Identity of rows -------------------------------------------------------------------------

  /** A row of a type with a primary key is named by it; any other row is only itself. */
  datatype Name = Keyed(t: TypeName, pk: Cell) | Anon(id: RowId)

  predicate HasKey(sch: Schema, t: TypeName) {
    t in sch && sch[t].pk.Some?
  }

  function NameOf(sch: Schema, s: State, id: RowId): Name {
    if HasKey(sch, id.t) then Keyed(id.t, Get(s, id, sch[id.t].pk.value)) else Anon(id)
  }

  ghost predicate Unique(sch: Schema, s: State) {
    forall id1, id2 | id1 in s.rows && id2 in s.rows && NameOf(sch, s, id1) == NameOf(sch, s, id2) :: id1 == id2
  }

  // ---- Well-formed stores -----------------------------------------------------------------------

  /** The slot holds a scalar of its type or a link to a row that exists. */
  predicate SlotOk(ids: set<RowId>, elem: Elem, x: Cell) {
    match elem
    case ScalarElem(base) => x.Val? && Matches(base, x.x)
    case LinkElem(target) => x.Link? && RowId(target, x.key) in ids
  }

  predicate CellOk(ids: set<RowId>, kind: Kind, x: Cell) {
    match kind
    case One(elem, nullable) => (x.NullCell? && (nullable || elem.LinkElem?)) || SlotOk(ids, elem, x)
    case Many(elem) => x.List? && forall y | y in x.items :: SlotOk(ids, elem, y)
    case LinkingObjects(_, _) => x.NullCell?
  }

  predicate RowOk(ids: set<RowId>, os: ObjectSchema, row: Row) {
    && |row| == |os.props|
    && forall c | 0 <= c < |row| :: CellOk(ids, os.props[c].kind, row[c])
  }

  /** Every row has the columns of its type, every cell the type of its column, and no link dangles. */
  ghost predicate WellFormed(sch: Schema, s: State) {
    && (forall id | id in s.rows :: id.t in sch && id.key < s.next)
    && (forall id | id in s.rows :: RowOk(s.rows.Keys, sch[id.t], s.rows[id]))
  }

  lemma CellOkMono(ids: set<RowId>, ids': set<RowId>, kind: Kind, x: Cell)
    requires ids <= ids' && CellOk(ids, kind, x)
    ensures CellOk(ids', kind, x)
  {
  }

  lemma InitialOk(ids: set<RowId>, kind: Kind)
    ensures CellOk(ids, kind, Initial(kind))
  {
  }

  lemma PutOk(sch: Schema, s: State, id: RowId, c: nat, x: Cell, w: Write)
    requires WellFormed(sch, s)
    requires id in s.rows && c < |s.rows[id]|
    requires CellOk(s.rows.Keys, sch[id.t].props[c].kind, x)
    ensures WellFormed(sch, Put(s, id, c, x, w))
    ensures Put(s, id, c, x, w).rows.Keys == s.rows.Keys
  {
    assert Put(s, id, c, x, w).rows.Keys == s.rows.Keys;
  }

  lemma AddRowOk(sch: Schema, s: State, t: TypeName, row: Row)
    requires WellFormed(sch, s) && t in sch && RowOk(s.rows.Keys, sch[t], row)
    ensures WellFormed(sch, AddRow(s, t, row))
    ensures RowId(t, s.next) !in s.rows
  {
    var s' := AddRow(s, t, row);
    forall id | id in s'.rows
      ensures RowOk(s'.rows.Keys, sch[id.t], s'.rows[id])
    {
      forall c | 0 <= c < |s'.rows[id]|
        ensures CellOk(s'.rows.Keys, sch[id.t].props[c].kind, s'.rows[id][c])
      {
        CellOkMono(s.rows.Keys, s'.rows.Keys, sch[id.t].props[c].kind, s'.rows[id][c]);
      }
    }
  }
}
