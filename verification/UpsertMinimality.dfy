/** UpdateModified writes no more than it must: in a successful upsert of distinct keyed objects every
    assignment to a cell or list slot of an existing row takes it from its value before the whole call to its
    value after the whole call, and the two differ.
 */
module UpsertMinimality {
  import opened Store
  import opened Upsert
  import opened UpsertSafety
  import opened UpsertFrame
  import opened UpsertReadback

  function LocOf(w: Write): Option<Loc> {
    match w
    case Created(_, _) => None
    case Assigned(loc, _, _) => Some(loc)
    case SlotAssigned(loc, _, _, _) => Some(loc)
    case Appended(loc, _) => Some(loc)
    case Removed(loc, _) => Some(loc)
    case Cleared(loc) => Some(loc)
  }

  /** An assignment leads from the value in s to a different value in s'. An item is appended only to a list that is
      longer in the end, removed only beyond the end of one that is shorter, and a list is cleared that is empty in
      the end and was not.
   */
  predicate ExactWrite(s: State, s': State, w: Write) {
    match w
    case Assigned(loc, before, after) =>
      loc.id in s.rows ==>
        && before == Get(s, loc.id, loc.c)
        && after == Get(s', loc.id, loc.c)
        && Differs(before, after)
    case SlotAssigned(loc, index, before, after) =>
      loc.id in s.rows ==>
        && index < |Items(s, loc.id, loc.c)| && index < |Items(s', loc.id, loc.c)|
        && before == Items(s, loc.id, loc.c)[index]
        && after == Items(s', loc.id, loc.c)[index]
        && Differs(before, after)
    case Appended(loc, _) =>
      loc.id in s.rows ==> |Items(s, loc.id, loc.c)| < |Items(s', loc.id, loc.c)|
    case Removed(loc, index) =>
      loc.id in s.rows ==> |Items(s', loc.id, loc.c)| <= index < |Items(s, loc.id, loc.c)|
    case Cleared(loc) =>
      loc.id in s.rows ==> Items(s, loc.id, loc.c) != [] && Items(s', loc.id, loc.c) == []
    case Created(_, _) => true
  }

  /** Rows named in names, and cells lo up to hi of row id. */
  datatype Scope = Scope(names: set<Name>, id: RowId, lo: nat, hi: nat)

  predicate Covers(sch: Schema, s: State, scope: Scope, id: RowId, c: nat) {
    NameOf(sch, s, id) in scope.names || (id == scope.id && scope.lo <= c < scope.hi)
  }

  predicate InScope(sch: Schema, s: State, scope: Scope, w: Write) {
    LocOf(w).Some? && LocOf(w).value.id in s.rows ==> Covers(sch, s, scope, LocOf(w).value.id, LocOf(w).value.c)
  }

  /** All new log entries are exact and in scope. */
  ghost predicate Minimal(sch: Schema, s: State, s': State, scope: Scope) {
    && s.log <= s'.log
    && forall j {:trigger s'.log[j]} | |s.log| <= j < |s'.log| ::
         ExactWrite(s, s', s'.log[j]) && InScope(sch, s, scope, s'.log[j])
  }

  /** The cells a scope covers among the rows of s are the same in two states. */
  ghost predicate Steady(sch: Schema, s: State, s1: State, s2: State, scope: Scope) {
    forall id, c: nat | id in s.rows && Covers(sch, s, scope, id, c) :: Get(s1, id, c) == Get(s2, id, c)
  }

  ghost predicate Within(sch: Schema, s: State, inner: Scope, outer: Scope) {
    forall id, c: nat | id in s.rows && Covers(sch, s, inner, id, c) :: Covers(sch, s, outer, id, c)
  }

  /** Two steps of which neither touches what the other wrote. */
  lemma MinimalTrans(sch: Schema, s: State, s1: State, s2: State, scope1: Scope, scope2: Scope, scope: Scope)
    requires Minimal(sch, s, s1, scope1) && Minimal(sch, s1, s2, scope2)
    requires s.rows.Keys <= s1.rows.Keys && NamesKept(sch, s, s1)
    requires Steady(sch, s, s1, s2, scope1) && Steady(sch, s, s, s1, scope2)
    requires Within(sch, s, scope1, scope) && Within(sch, s, scope2, scope)
    ensures Minimal(sch, s, s2, scope)
  {
    forall j | |s.log| <= j < |s2.log|
      ensures ExactWrite(s, s2, s2.log[j]) && InScope(sch, s, scope, s2.log[j])
    {
      var w := s2.log[j];
      if j < |s1.log| {
        assert w == s1.log[j];
        FirstExact(sch, s, s1, s2, scope1, scope, w);
      } else {
        SecondExact(sch, s, s1, s2, scope2, scope, w);
      }
    }
  }

  lemma FirstExact(sch: Schema, s: State, s1: State, s2: State, scope1: Scope, scope: Scope, w: Write)
    requires ExactWrite(s, s1, w) && InScope(sch, s, scope1, w)
    requires Steady(sch, s, s1, s2, scope1) && Within(sch, s, scope1, scope)
    ensures ExactWrite(s, s2, w) && InScope(sch, s, scope, w)
  {
  }

  lemma SecondExact(sch: Schema, s: State, s1: State, s2: State, scope2: Scope, scope: Scope, w: Write)
    requires ExactWrite(s1, s2, w) && InScope(sch, s1, scope2, w)
    requires s.rows.Keys <= s1.rows.Keys && NamesKept(sch, s, s1)
    requires Steady(sch, s, s, s1, scope2) && Within(sch, s, scope2, scope)
    ensures ExactWrite(s, s2, w) && InScope(sch, s, scope, w)
  {
    var l := LocOf(w);
    if l.Some? && l.value.id in s.rows {
      assert l.value.id in s1.rows;
      assert Covers(sch, s1, scope2, l.value.id, l.value.c);
      assert NameOf(sch, s1, l.value.id) == NameOf(sch, s, l.value.id);
      assert Covers(sch, s, scope2, l.value.id, l.value.c);
    }
  }

  lemma MinimalNone(sch: Schema, s: State, scope: Scope)
    ensures Minimal(sch, s, s, scope)
  {
  }

  /** One write to a cell of its own. */
  lemma PutMinimal(sch: Schema, s: State, id: RowId, c: nat, x: Cell, w: Write, names: set<Name>)
    requires LocOf(w) == Some(Loc(id, c)) && ExactWrite(s, Put(s, id, c, x, w), w)
    ensures Minimal(sch, s, Put(s, id, c, x, w), Scope(names, id, c, c + 1))
  {
  }

  // ---- Objects ----------------------------------------------------------------------------------

  ghost predicate Updating(cfg: Config, s: State) {
    Ready(cfg, s) && cfg.policy.UpdateModified?
  }

  lemma OpenMinimal(cfg: Config, s: State, t: TypeName, v: Value, current: Option<ObjKey>, scope: Scope)
    requires Updating(cfg, s) && HasKey(cfg.schema, t)
    ensures var o := Open(cfg, s, t, v, current);
            && Minimal(cfg.schema, s, o.s, scope)
            && forall id | id in s.rows :: id in o.s.rows && o.s.rows[id] == s.rows[id]
  {
    OpenSafe(cfg, s, t, v, current);
  }

  lemma {:induction false} CreateMinimal(cfg: Config, s: State, t: TypeName, v: Value, current: Option<ObjKey>,
                                         scope: Scope)
    requires Updating(cfg, s) && HasKey(cfg.schema, t) && Distinct(cfg.schema, t, v) && v.Dict?
    requires Create(cfg, s, t, v, current).r.Ok?
    requires Names(cfg.schema, t, v) <= scope.names
    ensures Minimal(cfg.schema, s, Create(cfg, s, t, v, current).s, scope)
    decreases Nest(v), v, 3, 0
  {
    hide Open, Populate;
    var o := Open(cfg, s, t, v, current);
    var n := |cfg.schema[t].props|;
    var id := RowId(t, o.r.value.key);
    var rest := Scope(NamesFrom(cfg.schema, t, v, 0), id, 0, n);
    var none := Scope({}, id, 0, 0);
    OpenSafe(cfg, s, t, v, current);
    OpenFrame(cfg, s, t, v, current);
    OpenMinimal(cfg, s, t, v, current, none);
    PopulateMinimal(cfg, o.s, t, o.r.value, v, 0);
    if id in s.rows {
      assert NameOf(cfg.schema, s, id) in OwnName(cfg.schema, t, v);
    }
    MinimalTrans(cfg.schema, s, o.s, Populate(cfg, o.s, t, o.r.value, v, 0).s, none, rest, scope);
  }

  lemma {:induction false} PopulateMinimal(cfg: Config, s: State, t: TypeName, row: Opened, v: Value, i: nat)
    requires Updating(cfg, s) && t in cfg.schema && i <= |cfg.schema[t].props| && v.Dict?
    requires RowId(t, row.key) in s.rows && row.skipPrimary
    requires DistinctFrom(cfg.schema, t, v, i)
    requires NameOf(cfg.schema, s, RowId(t, row.key)) !in NamesFrom(cfg.schema, t, v, i)
    requires Populate(cfg, s, t, row, v, i).r.Ok?
    ensures Minimal(cfg.schema, s, Populate(cfg, s, t, row, v, i).s,
                    Scope(NamesFrom(cfg.schema, t, v, i), RowId(t, row.key), i, |cfg.schema[t].props|))
    decreases Nest(v), v, 2, |cfg.schema[t].props| - i
  {
    hide PopulateOne;
    var n := |cfg.schema[t].props|;
    var id := RowId(t, row.key);
    if i < n {
      var p := PopulateOne(cfg, s, t, row, v, i);
      PopulateOneSafe(cfg, s, t, row, v, i);
      PopulateOneFrame(cfg, s, t, row, v, i);
      PopulateOneMinimal(cfg, s, t, row, v, i);
      PopulateMinimal(cfg, p.s, t, row, v, i + 1);
      PopulateFrame(cfg, p.s, t, row, v, i + 1);
      var s' := Populate(cfg, p.s, t, row, v, i + 1).s;
      var mine, rest := PropNames(cfg.schema, t, v, i), NamesFrom(cfg.schema, t, v, i + 1);
      PopulateSteady(cfg, s, p.s, s', id, i, n, mine, rest);
      MinimalTrans(cfg.schema, s, p.s, s', Scope(mine, id, i, i + 1), Scope(rest, id, i + 1, n),
                   Scope(NamesFrom(cfg.schema, t, v, i), id, i, n));
    } else {
      MinimalNone(cfg.schema, s, Scope({}, id, i, n));
    }
  }

  lemma PopulateSteady(cfg: Config, s: State, s1: State, s2: State, id: RowId, i: nat, n: nat,
                       mine: set<Name>, rest: set<Name>)
    requires id in s.rows && NameOf(cfg.schema, s, id) !in mine && NameOf(cfg.schema, s, id) !in rest && mine !! rest
    requires Frame(cfg.schema, s, s1, {NameOf(cfg.schema, s, id)} + mine) && OthersKept(s, s1, id, i)
    requires Frame(cfg.schema, s1, s2, {NameOf(cfg.schema, s, id)} + rest) && BelowKept(s1, s2, id, i + 1)
    ensures Steady(cfg.schema, s, s1, s2, Scope(mine, id, i, i + 1))
    ensures Steady(cfg.schema, s, s, s1, Scope(rest, id, i + 1, n))
  {
    forall id', c: nat | id' in s.rows && Covers(cfg.schema, s, Scope(mine, id, i, i + 1), id', c)
      ensures Get(s1, id', c) == Get(s2, id', c)
    {
      assert id' in s1.rows;
      if NameOf(cfg.schema, s, id') in mine {
        assert NameOf(cfg.schema, s1, id') in mine;
        assert s2.rows[id'] == s1.rows[id'];
      }
    }
    forall id', c: nat | id' in s.rows && Covers(cfg.schema, s, Scope(rest, id, i + 1, n), id', c)
      ensures Get(s, id', c) == Get(s1, id', c)
    {
      if NameOf(cfg.schema, s, id') in rest {
        assert s1.rows[id'] == s.rows[id'];
      }
    }
  }

  lemma {:induction false} PopulateOneMinimal(cfg: Config, s: State, t: TypeName, row: Opened, v: Value, i: nat)
    requires Updating(cfg, s) && t in cfg.schema && i < |cfg.schema[t].props| && v.Dict?
    requires RowId(t, row.key) in s.rows && row.skipPrimary
    requires DistinctProp(cfg.schema, t, v, i)
    requires NameOf(cfg.schema, s, RowId(t, row.key)) !in PropNames(cfg.schema, t, v, i)
    requires PopulateOne(cfg, s, t, row, v, i).r.Ok?
    ensures Minimal(cfg.schema, s, PopulateOne(cfg, s, t, row, v, i).s,
                    Scope(PropNames(cfg.schema, t, v, i), RowId(t, row.key), i, i + 1))
    decreases Nest(v), v, 1, 0
  {
    hide SetPropertyImpl;
    var prop := cfg.schema[t].props[i];
    var id := RowId(t, row.key);
    if cfg.schema[t].pk == Some(i) || prop.kind.LinkingObjects? {
    } else if prop.name in v.fields {
      SetPropertyMinimal(cfg, s, id, i, prop.kind, v.fields[prop.name], false);
    } else if prop.default.Some? && row.created {
      SetPropertyMinimal(cfg, s, id, i, prop.kind, prop.default.value, true);
    }
  }

  lemma {:induction false} SetPropertyMinimal(cfg: Config, s: State, id: RowId, c: nat, kind: Kind, v: Value,
                                              isDefault: bool)
    requires Updating(cfg, s) && Writable(cfg, s, id, c, kind) && TargetsIn(kind, cfg.schema.Keys)
    requires DistinctValue(cfg.schema, kind, v)
    requires NameOf(cfg.schema, s, id) !in ValueNames(cfg.schema, kind, v)
    requires SetPropertyImpl(cfg, s, id, c, kind, v, isDefault).r.Ok?
    ensures Minimal(cfg.schema, s, SetPropertyImpl(cfg, s, id, c, kind, v, isDefault).s,
                    Scope(ValueNames(cfg.schema, kind, v), id, c, c + 1))
    decreases Nest(v), v, 6, 0
  {
    hide AssignList, Unbox;
    var names := ValueNames(cfg.schema, kind, v);
    if IsNullable(kind) && v.Null? {
      if !Get(s, id, c).NullCell? {
        PutMinimal(cfg.schema, s, id, c, NullCell, Assigned(Loc(id, c), Get(s, id, c), NullCell), names);
      }
    } else if kind.Many? {
      AssignListMinimal(cfg, s, id, c, kind.elem, v);
    } else if kind.One? {
      var before := Get(s, id, c);
      var u := Unbox(cfg, s, kind.elem, v, before, false);
      UnboxSafe(cfg, s, kind.elem, v, before, false);
      UnboxFrame(cfg, s, kind.elem, v, before, false);
      UnboxMinimal(cfg, s, kind.elem, v, before, false, Scope(names, id, c, c + 1));
      RowKept(cfg.schema, s, u.s, names, id);
      if Differs(before, u.r.value) {
        ThenAssignMinimal(cfg, s, u.s, id, c, u.r.value, names);
      }
    }
  }

  lemma ThenAssignMinimal(cfg: Config, s: State, s1: State, id: RowId, c: nat, x: Cell, names: set<Name>)
    requires id in s.rows && c < |s.rows[id]| && NameOf(cfg.schema, s, id) !in names && Unique(cfg.schema, s)
    requires id in s1.rows && s1.rows[id] == s.rows[id]
    requires Frame(cfg.schema, s, s1, names) && Minimal(cfg.schema, s, s1, Scope(names, id, 0, 0))
    requires Differs(Get(s, id, c), x)
    ensures Minimal(cfg.schema, s, Assign(s1, id, c, x), Scope(names, id, c, c + 1))
  {
    var w := Assigned(Loc(id, c), Get(s1, id, c), x);
    PutMinimal(cfg.schema, s1, id, c, x, w, {});
    var s2 := Put(s1, id, c, x, w);
    forall id', c': nat | id' in s.rows && Covers(cfg.schema, s, Scope(names, id, 0, 0), id', c')
      ensures Get(s1, id', c') == Get(s2, id', c')
    {
      assert id' != id;
    }
    MinimalTrans(cfg.schema, s, s1, s2, Scope(names, id, 0, 0), Scope({}, id, c, c + 1), Scope(names, id, c, c + 1));
  }

  lemma {:induction false} UnboxMinimal(cfg: Config, s: State, elem: Elem, v: Value, current: Cell, inList: bool,
                                        scope: Scope)
    requires Updating(cfg, s) && (elem.LinkElem? ==> elem.target in cfg.schema)
    requires DistinctSlot(cfg.schema, elem, v) && SlotNames(cfg.schema, elem, v) <= scope.names
    requires Unbox(cfg, s, elem, v, current, inList).r.Ok?
    ensures Minimal(cfg.schema, s, Unbox(cfg, s, elem, v, current, inList).s, Scope(scope.names, scope.id, 0, 0))
    ensures Minimal(cfg.schema, s, Unbox(cfg, s, elem, v, current, inList).s, scope)
    decreases Nest(v), v, 4, 0
  {
    if elem.LinkElem? && v.Dict? {
      CreateMinimal(cfg, s, elem.target, v, Passed(cfg, current),
                    Scope(scope.names, scope.id, 0, 0));
      CreateMinimal(cfg, s, elem.target, v, Passed(cfg, current), scope);
    } else {
      MinimalNone(cfg.schema, s, scope);
    }
  }

  // ---- Lists ------------------------------------------------------------------------------------

  /** A log entry of the element loop: exact in the slots lo up to hi of the list itself, appended to a list that was
      shorter than hi, or about an element's own rows.
   */
  predicate ListWrite(sch: Schema, s: State, s': State, names: set<Name>, id: RowId, c: nat, lo: nat, hi: nat,
                      w: Write) {
    if LocOf(w) == Some(Loc(id, c)) then
      || (w.SlotAssigned? && lo <= w.index < hi && ExactWrite(s, s', w))
      || (w.Appended? && |Items(s, id, c)| < hi)
    else ExactWrite(s, s', w) && InScope(sch, s, Scope(names, id, 0, 0), w)
  }

  ghost predicate MinimalList(sch: Schema, s: State, s': State, names: set<Name>, id: RowId, c: nat, lo: nat, hi: nat) {
    && s.log <= s'.log
    && forall j {:trigger s'.log[j]} | |s.log| <= j < |s'.log| :: ListWrite(sch, s, s', names, id, c, lo, hi, s'.log[j])
  }

  /** Other slots of the list are unchanged by the assignment of element i. */
  predicate SlotsKept(items: seq<Cell>, items': seq<Cell>, i: nat, sz: nat) {
    && |items| == Max(i, sz) && |items'| == Max(i + 1, sz)
    && forall j | 0 <= j < |items| && j != i :: items'[j] == items[j]
  }

  lemma {:induction false} AssignListMinimal(cfg: Config, s: State, id: RowId, c: nat, elem: Elem, v: Value)
    requires Updating(cfg, s) && Writable(cfg, s, id, c, Many(elem))
    requires elem.LinkElem? ==> elem.target in cfg.schema
    requires DistinctValue(cfg.schema, Many(elem), v)
    requires NameOf(cfg.schema, s, id) !in ValueNames(cfg.schema, Many(elem), v)
    requires AssignList(cfg, s, id, c, elem, v).r.Ok?
    ensures Minimal(cfg.schema, s, AssignList(cfg, s, id, c, elem, v).s,
                    Scope(ValueNames(cfg.schema, Many(elem), v), id, c, c + 1))
    decreases Nest(v), v, 5, if v.Vec? then |v.elems| + 1 else 0
  {
    hide AssignFrom, Trim;
    var names := ValueNames(cfg.schema, Many(elem), v);
    assert CellOk(s.rows.Keys, Many(elem), Get(s, id, c));
    if v.Vec? {
      var sz, n := |Items(s, id, c)|, |v.elems|;
      var l := AssignFrom(cfg, s, id, c, elem, v, 0, sz);
      AssignFromSafe(cfg, s, id, c, elem, v, 0, sz);
      AssignFromKeeps(cfg, s, id, c, elem, v, 0, sz);
      AssignFromMinimal(cfg, s, id, c, elem, v, 0, sz);
      TrimMinimal(cfg.schema, s, l.s, names, id, c, n, sz);
    } else if v.Null? && Items(s, id, c) != [] {
      PutMinimal(cfg.schema, s, id, c, List([]), Cleared(Loc(id, c)), names);
    }
  }

  lemma {:induction false} TrimLog(s: State, id: RowId, c: nat, index: nat, sz: nat)
    ensures var s' := Trim(s, id, c, index, sz).s;
            && s.log <= s'.log
            && (forall j | |s.log| <= j < |s'.log| ::
                  s'.log[j].Removed? && s'.log[j].loc == Loc(id, c) && index <= s'.log[j].index < sz)
            && (forall id', c': nat | (id', c') != (id, c) :: Get(s', id', c') == Get(s, id', c'))
    decreases sz
  {
    if index < sz <= |Items(s, id, c)| {
      TrimLog(RemoveSlot(s, id, c, sz - 1), id, c, index, sz - 1);
    }
  }

  lemma TrimMinimal(sch: Schema, s: State, s1: State, names: set<Name>, id: RowId, c: nat, n: nat, sz: nat)
    requires MinimalList(sch, s, s1, names, id, c, 0, n)
    requires id in s1.rows && c < |s1.rows[id]| && Get(s1, id, c).List? && |Items(s1, id, c)| == Max(n, sz)
    requires |Items(s, id, c)| == sz
    ensures Minimal(sch, s, Trim(s1, id, c, n, sz).s, Scope(names, id, c, c + 1))
  {
    var s2 := Trim(s1, id, c, n, sz).s;
    TrimItems(s1, id, c, n, sz);
    TrimLog(s1, id, c, n, sz);
    forall j | |s.log| <= j < |s2.log|
      ensures ExactWrite(s, s2, s2.log[j]) && InScope(sch, s, Scope(names, id, c, c + 1), s2.log[j])
    {
      if j < |s1.log| {
        assert s2.log[j] == s1.log[j];
        assert ListWrite(sch, s, s1, names, id, c, 0, n, s1.log[j]);
      }
    }
  }

  lemma {:induction false} AssignFromMinimal(cfg: Config, s: State, id: RowId, c: nat, elem: Elem, v: Value, i: nat,
                                             sz: nat)
    requires Updating(cfg, s) && Writable(cfg, s, id, c, Many(elem))
    requires elem.LinkElem? ==> elem.target in cfg.schema
    requires v.Vec? && i <= |v.elems|
    requires DistinctRest(cfg.schema, elem, v, i)
    requires NameOf(cfg.schema, s, id) !in RestNames(cfg.schema, elem, v, i)
    requires |Items(s, id, c)| == Max(i, sz)
    requires AssignFrom(cfg, s, id, c, elem, v, i, sz).r.Ok?
    ensures MinimalList(cfg.schema, s, AssignFrom(cfg, s, id, c, elem, v, i, sz).s, RestNames(cfg.schema, elem, v, i),
                        id, c, i, |v.elems|)
    decreases Nest(v), v, 5, |v.elems| - i
  {
    hide AssignOne;
    if i < |v.elems| {
      var a := AssignOne(cfg, s, id, c, elem, v, i, sz);
      var mine, rest := SlotNames(cfg.schema, elem, v.elems[i]), RestNames(cfg.schema, elem, v, i + 1);
      AssignOneSafe(cfg, s, id, c, elem, v, i, sz);
      AssignOneFrame(cfg, s, id, c, elem, v, i, sz);
      AssignOneMinimal(cfg, s, id, c, elem, v, i, sz);
      AssignFromMinimal(cfg, a.s, id, c, elem, v, i + 1, sz);
      AssignFromFrame(cfg, a.s, id, c, elem, v, i + 1, sz);
      AssignFromKeeps(cfg, a.s, id, c, elem, v, i + 1, sz);
      var s' := AssignFrom(cfg, a.s, id, c, elem, v, i + 1, sz).s;
      ListTrans(cfg.schema, s, a.s, s', mine, rest, id, c, i, |v.elems|, sz);
      assert mine + rest == RestNames(cfg.schema, elem, v, i);
    }
  }

  /** The slots below i are as they were. */
  lemma AssignFromKeeps(cfg: Config, s: State, id: RowId, c: nat, elem: Elem, v: Value, i: nat, sz: nat)
    requires Ready(cfg, s) && Writable(cfg, s, id, c, Many(elem))
    requires elem.LinkElem? ==> elem.target in cfg.schema
    requires v.Vec? && i <= |v.elems|
    requires DistinctRest(cfg.schema, elem, v, i)
    requires NameOf(cfg.schema, s, id) !in RestNames(cfg.schema, elem, v, i)
    requires |Items(s, id, c)| == Max(i, sz)
    requires AssignFrom(cfg, s, id, c, elem, v, i, sz).r.Ok?
    ensures var s' := AssignFrom(cfg, s, id, c, elem, v, i, sz).s;
            && Get(s', id, c).List?
            && |Items(s', id, c)| == Max(|v.elems|, sz)
            && Items(s', id, c)[..i] == Items(s, id, c)[..i]
  {
    FrameRefl(cfg.schema, s, {});
    AssignFromHolds(cfg, s, {}, s, id, c, elem, v, i, sz);
  }

  lemma ListTrans(sch: Schema, s: State, s1: State, s2: State, mine: set<Name>, rest: set<Name>, id: RowId, c: nat,
                  i: nat, n: nat, sz: nat)
    requires id in s.rows && i < n && mine !! rest
    requires NameOf(sch, s, id) !in mine && NameOf(sch, s, id) !in rest
    requires Frame(sch, s, s1, {NameOf(sch, s, id)} + mine) && Frame(sch, s1, s2, {NameOf(sch, s, id)} + rest)
    requires MinimalList(sch, s, s1, mine, id, c, i, i + 1) && MinimalList(sch, s1, s2, rest, id, c, i + 1, n)
    requires SlotsKept(Items(s, id, c), Items(s1, id, c), i, sz)
    requires |Items(s2, id, c)| >= i + 1 && Items(s2, id, c)[..i + 1] == Items(s1, id, c)[..i + 1]
    ensures MinimalList(sch, s, s2, mine + rest, id, c, i, n)
  {
    forall j | |s.log| <= j < |s2.log|
      ensures ListWrite(sch, s, s2, mine + rest, id, c, i, n, s2.log[j])
    {
      var w := s2.log[j];
      if j < |s1.log| {
        assert w == s1.log[j];
        FirstListWrite(sch, s, s1, s2, mine, rest, id, c, i, n, w);
      } else {
        SecondListWrite(sch, s, s1, s2, mine, rest, id, c, i, n, sz, w);
      }
    }
  }

  lemma FirstListWrite(sch: Schema, s: State, s1: State, s2: State, mine: set<Name>, rest: set<Name>, id: RowId, c: nat,
                       i: nat, n: nat, w: Write)
    requires id in s.rows && i < n && mine !! rest && NameOf(sch, s, id) !in mine && NamesKept(sch, s, s1)
    requires Frame(sch, s1, s2, {NameOf(sch, s, id)} + rest) && s.rows.Keys <= s1.rows.Keys
    requires ListWrite(sch, s, s1, mine, id, c, i, i + 1, w)
    requires |Items(s1, id, c)| >= i + 1 && |Items(s2, id, c)| >= i + 1
    requires Items(s2, id, c)[..i + 1] == Items(s1, id, c)[..i + 1]
    ensures ListWrite(sch, s, s2, mine + rest, id, c, i, n, w)
  {
    if LocOf(w) == Some(Loc(id, c)) {
      assert Items(s2, id, c)[i] == Items(s2, id, c)[..i + 1][i] == Items(s1, id, c)[i];
    } else if LocOf(w).Some? && LocOf(w).value.id in s.rows {
      var r := LocOf(w).value.id;
      assert NameOf(sch, s1, r) == NameOf(sch, s, r) && NameOf(sch, s, r) in mine;
      assert s2.rows[r] == s1.rows[r];
    }
  }

  lemma SecondListWrite(sch: Schema, s: State, s1: State, s2: State, mine: set<Name>, rest: set<Name>, id: RowId,
                        c: nat, i: nat, n: nat, sz: nat, w: Write)
    requires id in s.rows && i < n && mine !! rest && NameOf(sch, s, id) !in rest && NamesKept(sch, s, s1)
    requires Frame(sch, s, s1, {NameOf(sch, s, id)} + mine) && s.rows.Keys <= s1.rows.Keys
    requires ListWrite(sch, s1, s2, rest, id, c, i + 1, n, w)
    requires SlotsKept(Items(s, id, c), Items(s1, id, c), i, sz)
    ensures ListWrite(sch, s, s2, mine + rest, id, c, i, n, w)
  {
    if LocOf(w) == Some(Loc(id, c)) {
      assert id in s1.rows;
    } else if LocOf(w).Some? && LocOf(w).value.id in s.rows {
      var r := LocOf(w).value.id;
      assert r in s1.rows;
      assert NameOf(sch, s1, r) == NameOf(sch, s, r) && NameOf(sch, s, r) in rest;
      assert s1.rows[r] == s.rows[r];
    }
  }

  lemma {:induction false} AssignOneMinimal(cfg: Config, s: State, id: RowId, c: nat, elem: Elem, v: Value, i: nat,
                                            sz: nat)
    requires Updating(cfg, s) && Writable(cfg, s, id, c, Many(elem))
    requires elem.LinkElem? ==> elem.target in cfg.schema
    requires v.Vec? && i < |v.elems|
    requires DistinctSlot(cfg.schema, elem, v.elems[i])
    requires NameOf(cfg.schema, s, id) !in SlotNames(cfg.schema, elem, v.elems[i])
    requires |Items(s, id, c)| == Max(i, sz)
    requires AssignOne(cfg, s, id, c, elem, v, i, sz).r.Ok?
    ensures var s' := AssignOne(cfg, s, id, c, elem, v, i, sz).s;
            && MinimalList(cfg.schema, s, s', SlotNames(cfg.schema, elem, v.elems[i]), id, c, i, i + 1)
            && SlotsKept(Items(s, id, c), Items(s', id, c), i, sz)
    decreases Nest(v), v, 4, 1
  {
    hide Unbox, PlaceItem;
    var before := if i < sz then Items(s, id, c)[i] else NullCell;
    var names := SlotNames(cfg.schema, elem, v.elems[i]);
    var u := Unbox(cfg, s, elem, v.elems[i], before, true);
    UnboxSafe(cfg, s, elem, v.elems[i], before, true);
    UnboxFrame(cfg, s, elem, v.elems[i], before, true);
    UnboxMinimal(cfg, s, elem, v.elems[i], before, true, Scope(names, id, 0, 0));
    RowKept(cfg.schema, s, u.s, names, id);
    PlaceMinimal(cfg.schema, s, u.s, names, id, c, before, u.r.value, i, sz);
  }

  lemma PlaceMinimal(sch: Schema, s: State, s1: State, names: set<Name>, id: RowId, c: nat, before: Cell, x: Cell,
                     i: nat, sz: nat)
    requires id in s.rows && id in s1.rows && s1.rows[id] == s.rows[id] && c < |s.rows[id]|
    requires NameOf(sch, s, id) !in names
    requires Minimal(sch, s, s1, Scope(names, id, 0, 0))
    requires |Items(s, id, c)| == Max(i, sz) && (i < sz ==> before == Items(s, id, c)[i])
    ensures var s' := PlaceItem(s1, id, c, before, x, i, sz).s;
            && MinimalList(sch, s, s', names, id, c, i, i + 1)
            && SlotsKept(Items(s, id, c), Items(s', id, c), i, sz)
  {
    var s' := PlaceItem(s1, id, c, before, x, i, sz).s;
    assert forall id', c': nat | (id', c') != (id, c) :: Get(s', id', c') == Get(s1, id', c');
    forall j | |s.log| <= j < |s'.log|
      ensures ListWrite(sch, s, s', names, id, c, i, i + 1, s'.log[j])
    {
      if j < |s1.log| {
        assert s'.log[j] == s1.log[j];
        ElsewhereListWrite(sch, s, s1, s', names, id, c, i, i + 1, s1.log[j]);
      }
    }
  }

  lemma ElsewhereListWrite(sch: Schema, s: State, s1: State, s': State, names: set<Name>, id: RowId, c: nat,
                           lo: nat, hi: nat, w: Write)
    requires NameOf(sch, s, id) !in names && id in s.rows
    requires forall id', c': nat | (id', c') != (id, c) :: Get(s', id', c') == Get(s1, id', c')
    requires ExactWrite(s, s1, w) && InScope(sch, s, Scope(names, id, 0, 0), w)
    ensures ListWrite(sch, s, s', names, id, c, lo, hi, w)
  {
  }

  // ---- Counting appends and removals ------------------------------------------------------------

  /** How often the log appends to a list, and removes from it. */
  function Appends(log: seq<Write>, loc: Loc): nat {
    if log == [] then 0
    else
      var w := log[|log| - 1];
      Appends(log[..|log| - 1], loc) + if w.Appended? && w.loc == loc then 1 else 0
  }

  function Removals(log: seq<Write>, loc: Loc): nat {
    if log == [] then 0
    else
      var w := log[|log| - 1];
      Removals(log[..|log| - 1], loc) + if w.Removed? && w.loc == loc then 1 else 0
  }

  /** Between two states the log has grown by so many appends and removals of a list. */
  ghost predicate Counted(s: State, s': State, loc: Loc, appends: nat, removals: nat) {
    && Appends(s'.log, loc) == Appends(s.log, loc) + appends
    && Removals(s'.log, loc) == Removals(s.log, loc) + removals
  }

  lemma CountedWrite(log: seq<Write>, w: Write, loc: Loc)
    ensures Appends(log + [w], loc) == Appends(log, loc) + if w.Appended? && w.loc == loc then 1 else 0
    ensures Removals(log + [w], loc) == Removals(log, loc) + if w.Removed? && w.loc == loc then 1 else 0
  {
    assert (log + [w])[..|log|] == log;
  }

  lemma {:induction false} CountedNone(log: seq<Write>, log': seq<Write>, loc: Loc)
    requires log <= log' && forall j | |log| <= j < |log'| :: LocOf(log'[j]) != Some(loc)
    ensures Appends(log', loc) == Appends(log, loc) && Removals(log', loc) == Removals(log, loc)
    decreases |log'|
  {
    if |log| < |log'| {
      var n := |log'| - 1;
      assert LocOf(log'[n]) != Some(loc);
      CountedNone(log, log'[..n], loc);
    } else {
      assert log == log';
    }
  }

  lemma UnboxCounts(cfg: Config, s: State, id: RowId, c: nat, elem: Elem, v: Value, current: Cell)
    requires Updating(cfg, s) && (elem.LinkElem? ==> elem.target in cfg.schema) && id in s.rows
    requires DistinctSlot(cfg.schema, elem, v) && NameOf(cfg.schema, s, id) !in SlotNames(cfg.schema, elem, v)
    requires Unbox(cfg, s, elem, v, current, true).r.Ok?
    ensures Counted(s, Unbox(cfg, s, elem, v, current, true).s, Loc(id, c), 0, 0)
  {
    hide Unbox;
    var u := Unbox(cfg, s, elem, v, current, true).s;
    var scope := Scope(SlotNames(cfg.schema, elem, v), id, 0, 0);
    UnboxMinimal(cfg, s, elem, v, current, true, scope);
    forall j | |s.log| <= j < |u.log|
      ensures LocOf(u.log[j]) != Some(Loc(id, c))
    {
      assert InScope(cfg.schema, s, scope, u.log[j]);
    }
    CountedNone(s.log, u.log, Loc(id, c));
  }

  lemma AssignOneCounts(cfg: Config, s: State, id: RowId, c: nat, elem: Elem, v: Value, i: nat, sz: nat)
    requires Updating(cfg, s) && Writable(cfg, s, id, c, Many(elem))
    requires elem.LinkElem? ==> elem.target in cfg.schema
    requires v.Vec? && i < |v.elems| && DistinctSlot(cfg.schema, elem, v.elems[i])
    requires NameOf(cfg.schema, s, id) !in SlotNames(cfg.schema, elem, v.elems[i])
    requires AssignOne(cfg, s, id, c, elem, v, i, sz).r.Ok?
    ensures Counted(s, AssignOne(cfg, s, id, c, elem, v, i, sz).s, Loc(id, c), if i >= sz then 1 else 0, 0)
  {
    hide Unbox, WellFormed, Unique;
    var before := if i < sz then Items(s, id, c)[i] else NullCell;
    var u := Unbox(cfg, s, elem, v.elems[i], before, true);
    UnboxCounts(cfg, s, id, c, elem, v.elems[i], before);
    var x := u.r.value;
    CountedWrite(u.s.log, Appended(Loc(id, c), x), Loc(id, c));
    if i < |Items(u.s, id, c)| {
      CountedWrite(u.s.log, SlotAssigned(Loc(id, c), i, Items(u.s, id, c)[i], x), Loc(id, c));
    }
  }

  lemma {:induction false} AssignFromCounts(cfg: Config, s: State, id: RowId, c: nat, elem: Elem, v: Value, i: nat,
                                            sz: nat)
    requires Updating(cfg, s) && Writable(cfg, s, id, c, Many(elem))
    requires elem.LinkElem? ==> elem.target in cfg.schema
    requires v.Vec? && i <= |v.elems| && DistinctRest(cfg.schema, elem, v, i)
    requires NameOf(cfg.schema, s, id) !in RestNames(cfg.schema, elem, v, i)
    requires AssignFrom(cfg, s, id, c, elem, v, i, sz).r.Ok?
    ensures Counted(s, AssignFrom(cfg, s, id, c, elem, v, i, sz).s, Loc(id, c),
                    Max(|v.elems|, Max(i, sz)) - Max(i, sz), 0)
    decreases |v.elems| - i
  {
    hide AssignOne, WellFormed, Unique;
    if i < |v.elems| {
      AssignOneSafe(cfg, s, id, c, elem, v, i, sz);
      AssignOneCounts(cfg, s, id, c, elem, v, i, sz);
      AssignFromCounts(cfg, AssignOne(cfg, s, id, c, elem, v, i, sz).s, id, c, elem, v, i + 1, sz);
    }
  }

  lemma {:induction false} TrimCounts(s: State, id: RowId, c: nat, index: nat, sz: nat)
    requires Trim(s, id, c, index, sz).r.Ok?
    ensures Counted(s, Trim(s, id, c, index, sz).s, Loc(id, c), 0, if index < sz then sz - index else 0)
    decreases sz
  {
    if index < sz {
      CountedWrite(s.log, Removed(Loc(id, c), sz - 1), Loc(id, c));
      TrimCounts(RemoveSlot(s, id, c, sz - 1), id, c, index, sz - 1);
    }
  }

  // ---- Main results -----------------------------------------------------------------------------

  /** Assigning n elements to a list of sz items logs max(0, n - sz) appends to it and max(0, sz - n) removals, so
      never both.
   */
  lemma AssignListCounts(cfg: Config, s: State, id: RowId, c: nat, elem: Elem, v: Value)
    requires Updating(cfg, s) && Writable(cfg, s, id, c, Many(elem))
    requires elem.LinkElem? ==> elem.target in cfg.schema
    requires v.Vec? && DistinctValue(cfg.schema, Many(elem), v)
    requires NameOf(cfg.schema, s, id) !in ValueNames(cfg.schema, Many(elem), v)
    requires AssignList(cfg, s, id, c, elem, v).r.Ok?
    ensures var sz, n := |Items(s, id, c)|, |v.elems|;
            Counted(s, AssignList(cfg, s, id, c, elem, v).s, Loc(id, c), Max(n, sz) - sz, Max(n, sz) - n)
  {
    hide AssignFrom, Trim, WellFormed, Unique;
    var sz := |Items(s, id, c)|;
    AssignFromCounts(cfg, s, id, c, elem, v, 0, sz);
    TrimCounts(AssignFrom(cfg, s, id, c, elem, v, 0, sz).s, id, c, |v.elems|, sz);
  }

  /** Every assignment UpdateModified makes to an existing row is one the net change needs. */
  lemma WritesAreNeeded(cfg: Config, s: State, t: TypeName, v: Value)
    requires Ready(cfg, s) && cfg.policy.UpdateModified?
    requires HasKey(cfg.schema, t) && v.Dict? && Distinct(cfg.schema, t, v)
    ensures var st := Create(cfg, s, t, v, None);
            st.r.Ok? ==>
              && s.log <= st.s.log
              && forall j {:trigger st.s.log[j]} | |s.log| <= j < |st.s.log| :: ExactWrite(s, st.s, st.s.log[j])
  {
    if Create(cfg, s, t, v, None).r.Ok? {
      CreateMinimal(cfg, s, t, v, None, Scope(Names(cfg.schema, t, v), RowId(t, 0), 0, 0));
    }
  }
}
