/** The accessor layer itself: methods that read and write the tables of a Realm in place, each proved to do
    what its specification in module Upsert says.
 */
module RealmStore {
  import opened Store
  import opened Upsert
  import opened ResultsBatch

  class Realm {
    const schema: Schema
    const migrating: bool
    const passesKey: bool
    var rows: map<RowId, Row>
    var next: ObjKey
    var log: seq<Write>

    constructor (schema: Schema, migrating: bool, passesKey: bool)
      ensures this.schema == schema && this.migrating == migrating && this.passesKey == passesKey
      ensures Contents() == State(map[], 0, [])
    {
      this.schema := schema;
      this.migrating := migrating;
      this.passesKey := passesKey;
      rows, next, log := map[], 0, [];
    }

    function Contents(): State
      reads this
    {
      State(rows, next, log)
    }

    function With(policy: Policy): Config {
      Config(schema, policy, migrating, passesKey)
    }

    // ---- Single writes --------------------------------------------------------------------------

    method PutCell(id: RowId, c: nat, x: Cell, w: Write)
      modifies this
      ensures Contents() == Put(old(Contents()), id, c, x, w)
    {
      if id in rows && c < |rows[id]| {
        rows := rows[id := rows[id][c := x]];
      }
      log := log + [w];
    }

    method CreateObject(t: TypeName, row: Row) returns (key: ObjKey)
      modifies this
      ensures Contents() == AddRow(old(Contents()), t, row) && key == old(next)
    {
      key := next;
      rows := rows[RowId(t, key) := row];
      next := next + 1;
      log := log + [Created(RowId(t, key), row)];
    }

    method RemoveAll(id: RowId, c: nat)
      modifies this
      ensures Contents() == Clear(old(Contents()), id, c)
    {
      if Items(Contents(), id, c) != [] {
        PutCell(id, c, List([]), Cleared(Loc(id, c)));
      }
    }

    // ---- Creating objects -----------------------------------------------------------------------

    method Create(t: TypeName, v: Value, policy: Policy, current: Option<ObjKey>) returns (r: Result<ObjKey>)
      requires t in schema
      modifies this
      ensures Step(Contents(), r) == Upsert.Create(With(policy), old(Contents()), t, v, current)
      decreases Nest(v), v, 3, 0
    {
      var os := schema[t];
      var created := false;
      var skipPrimary := true;
      var key: ObjKey;
      if os.pk.Some? {
        var pk := PrimaryCell(schema, t, v);
        if pk.Err? {
          return Err(pk.error);
        }
        var found := FindRow(schema, Contents(), t, pk.value);
        if found.Some? {
          if policy != ForceCreate {
            key := found.value;
          } else if migrating {
            key := CreateObject(t, InitialRow(os));
            created, skipPrimary := true, false;
          } else {
            return Err(DuplicatePrimaryKey);
          }
        } else {
          created := true;
          key := CreateObject(t, InitialRow(os)[os.pk.value := pk.value]);
        }
      } else if policy == UpdateModified && current.Some? {
        if RowId(t, current.value) !in rows {
          return Err(KeyNotFound);
        }
        key := current.value;
      } else {
        key := CreateObject(t, InitialRow(os));
        created := true;
      }
      assert Step(Contents(), Ok(Opened(key, created, skipPrimary)))
          == Open(With(policy), old(Contents()), t, v, current);
      var p := Populate(t, Opened(key, created, skipPrimary), v, policy);
      r := if p.Err? then Err(p.error) else Ok(key);
    }

    method Populate(t: TypeName, row: Opened, v: Value, policy: Policy) returns (r: Result<()>)
      requires t in schema
      modifies this
      ensures Step(Contents(), r) == Upsert.Populate(With(policy), old(Contents()), t, row, v, 0)
      decreases Nest(v), v, 2, 0
    {
      var props := schema[t].props;
      var i := 0;
      while i < |props|
        invariant 0 <= i <= |props|
        invariant Upsert.Populate(With(policy), Contents(), t, row, v, i)
               == Upsert.Populate(With(policy), old(Contents()), t, row, v, 0)
      {
        var prop := props[i];
        var isPrimary := schema[t].pk == Some(i);
        if prop.kind.LinkingObjects? || (row.skipPrimary && isPrimary) {
          i := i + 1;
          continue;
        }
        if !v.Dict? {
          return Err(BadCast);
        }
        var x := Lookup(v, prop.name);
        if !row.created && x.None? {
          i := i + 1;
          continue;
        }
        var isDefault := false;
        if x.None? {
          if prop.default.Some? {
            x := Some(prop.default.value);
          }
          isDefault := true;
        }
        if (x.None? || x.value.Null?) && RejectsNull(prop.kind) {
          if isPrimary || !v.allowMissing {
            return Err(MissingPropertyValue);
          }
        }
        if x.Some? {
          assert TargetsIn(prop.kind, schema.Keys);
          var s := SetPropertyImpl(RowId(t, row.key), i, prop.kind, x.value, policy, isDefault);
          if s.Err? {
            return s;
          }
        }
        i := i + 1;
      }
      r := Ok(());
    }

    // ---- Setting properties ---------------------------------------------------------------------

    method SetPropertyImpl(id: RowId, c: nat, kind: Kind, v: Value, policy: Policy, isDefault: bool)
      returns (r: Result<()>)
      requires TargetsIn(kind, schema.Keys)
      modifies this
      ensures Step(Contents(), r) == Upsert.SetPropertyImpl(With(policy), old(Contents()), id, c, kind, v, isDefault)
      decreases Nest(v), v, 6, 0
    {
      if IsNullable(kind) && v.Null? {
        if policy != UpdateModified || !Get(Contents(), id, c).NullCell? {
          if kind.elem.LinkElem? {
            if !isDefault {
              PutCell(id, c, NullCell, Assigned(Loc(id, c), Get(Contents(), id, c), NullCell));
            }
          } else {
            PutCell(id, c, NullCell, Assigned(Loc(id, c), Get(Contents(), id, c), NullCell));
          }
        }
        return Ok(());
      }
      if IsArray(kind) {
        if kind.LinkingObjects? {
          return Err(ReadOnlyProperty);
        }
        r := AssignList(id, c, kind.elem, v, policy);
        return;
      }
      var before := Get(Contents(), id, c);
      var u := Unbox(kind.elem, v, policy, before, false);
      if u.Err? {
        return Err(u.error);
      }
      if policy != UpdateModified || Differs(before, u.value) {
        PutCell(id, c, u.value, Assigned(Loc(id, c), Get(Contents(), id, c), u.value));
      }
      r := Ok(());
    }

    method Unbox(elem: Elem, v: Value, policy: Policy, current: Cell, inList: bool) returns (r: Result<Cell>)
      requires elem.LinkElem? ==> elem.target in schema
      modifies this
      ensures Step(Contents(), r) == Upsert.Unbox(With(policy), old(Contents()), elem, v, current, inList)
      decreases Nest(v), v, 4, 0
    {
      if elem.ScalarElem? {
        return if v.Prim? && Matches(elem.base, v.x) then Ok(Val(v.x)) else Err(BadCast);
      }
      if v.Managed? {
        return if inList && v.id.t != elem.target then Err(InvalidObject)
               else if RowId(elem.target, v.id.key) !in rows then Err(KeyNotFound)
               else Ok(Link(v.id.key));
      }
      var o := Create(elem.target, v, policy, if passesKey && current.Link? then Some(current.key) else None);
      r := if o.Err? then Err(o.error) else Ok(Link(o.value));
    }

    method SetPropertyValue(id: RowId, name: string, v: Value, policy: Policy) returns (r: Result<()>)
      requires id.t in schema
      modifies this
      ensures Step(Contents(), r) == SetProperty(With(policy), old(Contents()), id, name, v)
    {
      if id !in rows {
        return Err(InvalidObject);
      }
      var c := PropertyForName(schema[id.t], name);
      if c.None? {
        return Err(InvalidProperty);
      }
      if schema[id.t].pk == c && !migrating {
        return Err(ModifyPrimaryKey);
      }
      r := SetPropertyImpl(id, c.value, schema[id.t].props[c.value].kind, v, policy, false);
    }

    // ---- Lists ----------------------------------------------------------------------------------

    method AssignList(id: RowId, c: nat, elem: Elem, v: Value, policy: Policy) returns (r: Result<()>)
      requires elem.LinkElem? ==> elem.target in schema
      modifies this
      ensures Step(Contents(), r) == Upsert.AssignList(With(policy), old(Contents()), id, c, elem, v)
      decreases Nest(v), v, 5, if v.Vec? then |v.elems| + 1 else 0
    {
      ghost var cfg := With(policy);
      if v == ListOf(Loc(id, c)) {
        return Ok(());
      }
      if v.Null? {
        RemoveAll(id, c);
        return Ok(());
      }
      if policy == UpdateModified {
        var sz: nat := |Items(Contents(), id, c)|;
        if !v.Vec? {
          return Err(BadCast);
        }
        ghost var size := sz;
        var index := 0;
        while index < |v.elems|
          invariant 0 <= index <= |v.elems|
          invariant Upsert.AssignFrom(cfg, Contents(), id, c, elem, v, index, sz)
                 == Upsert.AssignFrom(cfg, old(Contents()), id, c, elem, v, 0, sz)
        {
          var a := AssignElement(id, c, elem, v, index, sz, policy);
          if a.Err? {
            return a;
          }
          index := index + 1;
        }
        while index < sz
          invariant Trim(Contents(), id, c, index, sz)
                 == Trim(Upsert.AssignFrom(cfg, old(Contents()), id, c, elem, v, 0, size).s, id, c, index, size)
          decreases sz - index
        {
          sz := sz - 1;
          var items := Items(Contents(), id, c);
          if sz >= |items| {
            return Err(OutOfBoundsIndex);
          }
          PutCell(id, c, List(items[..sz] + items[sz + 1..]), Removed(Loc(id, c), sz));
        }
      } else {
        RemoveAll(id, c);
        if !v.Vec? {
          return Err(BadCast);
        }
        var i := 0;
        while i < |v.elems|
          invariant 0 <= i <= |v.elems|
          invariant Upsert.AssignFrom(cfg, Contents(), id, c, elem, v, i, 0)
                 == Upsert.AssignFrom(cfg, Clear(old(Contents()), id, c), id, c, elem, v, 0, 0)
        {
          var a := AssignElement(id, c, elem, v, i, 0, policy);
          if a.Err? {
            return a;
          }
          i := i + 1;
        }
      }
      r := Ok(());
    }

    /** Set element i in place if the list had that many items, else add it. */
    method AssignElement(id: RowId, c: nat, elem: Elem, v: Value, i: nat, sz: nat, policy: Policy)
      returns (r: Result<()>)
      requires elem.LinkElem? ==> elem.target in schema
      requires v.Vec? && i < |v.elems|
      modifies this
      ensures Step(Contents(), r) == Upsert.AssignOne(With(policy), old(Contents()), id, c, elem, v, i, sz)
      decreases Nest(v), v, 4, 1
    {
      if i < sz {
        if i >= |Items(Contents(), id, c)| {
          return Err(OutOfBoundsIndex);
        }
        var before := Items(Contents(), id, c)[i];
        var u := Unbox(elem, v.elems[i], policy, before, true);
        if u.Err? {
          return Err(u.error);
        }
        if Differs(before, u.value) {
          var items := Items(Contents(), id, c);
          if i >= |items| {
            return Err(OutOfBoundsIndex);
          }
          PutCell(id, c, List(items[i := u.value]), SlotAssigned(Loc(id, c), i, items[i], u.value));
        }
      } else {
        var u := Unbox(elem, v.elems[i], policy, NullCell, true);
        if u.Err? {
          return Err(u.error);
        }
        PutCell(id, c, List(Items(Contents(), id, c) + [u.value]), Appended(Loc(id, c), u.value));
      }
      r := Ok(());
    }

    // ---- Batch updates --------------------------------------------------------------------------

    /** Set one property of every row the query matches now. */
    method SetResultsValue(t: TypeName, q: Query, name: string, v: Value) returns (r: Result<()>)
      requires t in schema
      modifies this
      ensures Step(Contents(), r) == SetAll(With(ForceCreate), old(Contents()), t, q, name, v)
    {
      var c := PropertyForName(schema[t], name);
      if c.None? {
        return Err(InvalidProperty);
      }
      if schema[t].pk == c && !migrating {
        return Err(ModifyPrimaryKey);
      }
      var keys := Snapshot(Contents(), t, q);
      r := SetRows(t, keys, c.value, v);
    }

    method SetRows(t: TypeName, keys: seq<ObjKey>, c: nat, v: Value) returns (r: Result<()>)
      requires t in schema && c < |schema[t].props|
      modifies this
      ensures Step(Contents(), r) == SetEach(With(ForceCreate), old(Contents()), t, keys, c, v, 0)
    {
      var i := 0;
      while i < |keys|
        invariant 0 <= i <= |keys|
        invariant SetEach(With(ForceCreate), Contents(), t, keys, c, v, i)
               == SetEach(With(ForceCreate), old(Contents()), t, keys, c, v, 0)
      {
        r := SetPropertyImpl(RowId(t, keys[i]), c, schema[t].props[c].kind, v, ForceCreate, false);
        if r.Err? {
          return;
        }
        i := i + 1;
      }
      r := Ok(());
    }

    // ---- Reading --------------------------------------------------------------------------------

    method GetObjectForPrimaryKey(t: TypeName, v: Value) returns (r: Result<Option<ObjKey>>)
      requires t in schema
      ensures r == GetForPrimaryKey(schema, Contents(), t, v)
    {
      if schema[t].pk.None? {
        return Err(MissingPrimaryKey);
      }
      var pk := UnboxPrimary(schema[t].props[schema[t].pk.value], v);
      if pk.Err? {
        return Err(pk.error);
      }
      r := Ok(FindRow(schema, Contents(), t, pk.value));
    }

    /** The rows that link to a row, collected in table order. */
    method LinkedFrom(origin: TypeName, column: nat, key: ObjKey) returns (linked: seq<Value>)
      ensures linked == Backlinks(Contents(), origin, column, key, 0)
    {
      linked := [];
      var k := next;
      while k > 0
        invariant 0 <= k <= next
        invariant linked == Backlinks(Contents(), origin, column, key, k)
      {
        k := k - 1;
        var id := RowId(origin, k);
        linked := seq(LinksIn(Get(Contents(), id, column), key), _ => Managed(id)) + linked;
      }
    }

    method GetPropertyValue(id: RowId, name: string) returns (r: Result<Value>)
      requires id.t in schema
      ensures r == if id !in rows then Err(InvalidObject)
                   else match PropertyForName(schema[id.t], name)
                        case None => Err(InvalidProperty)
                        case Some(c) => GetProperty(Contents(), id, c, schema[id.t].props[c].kind)
    {
      if id !in rows {
        return Err(InvalidObject);
      }
      var c := PropertyForName(schema[id.t], name);
      if c.None? {
        return Err(InvalidProperty);
      }
      var kind := schema[id.t].props[c.value].kind;
      var x := Get(Contents(), id, c.value);
      if IsNullable(kind) && x.NullCell? {
        return Ok(Null);
      }
      if kind.Many? {
        return Ok(ListOf(Loc(id, c.value)));
      }
      match kind {
        case LinkingObjects(origin, column) =>
          var rows := LinkedFrom(origin, column, id.key);
          r := Ok(Vec(rows));
        case One(ScalarElem(_), _) =>
          r := if x.Val? then Ok(Prim(x.x)) else Err(InvalidObject);
        case One(LinkElem(target), _) =>
          r := if x.Link? then Ok(Managed(RowId(target, x.key))) else Err(InvalidObject);
      }
    }
  }
}
