/** The frame of a create for every value, policy and accessor context: names may repeat and objects may lack primary
    keys. Only rows that the value names change, or, where existing keyless objects are handed on to be overwritten,
    that are reached from what it names and mentions.
 */
module UpsertReach {
  import opened Store
  import opened Upsert
  import opened UpsertSafety
  import opened UpsertFrame

  // ---- Managed objects in a value ---------------------------------------------------------------

  /** The rows that the managed objects in a value are linked as. */
  function Mentioned(sch: Schema, t: TypeName, v: Value): set<RowId>
    decreases Nest(v), v, 4, 0
  {
    if v.Dict? && t in sch then MentionedFrom(sch, t, v, 0) else {}
  }

  function MentionedFrom(sch: Schema, t: TypeName, v: Value, i: nat): set<RowId>
    requires v.Dict? && t in sch && i <= |sch[t].props|
    decreases Nest(v), v, 3, |sch[t].props| - i
  {
    if i == |sch[t].props| then {} else MentionedAt(sch, t, v, i) + MentionedFrom(sch, t, v, i + 1)
  }

  function MentionedAt(sch: Schema, t: TypeName, v: Value, i: nat): set<RowId>
    requires v.Dict? && t in sch && i < |sch[t].props|
    decreases Nest(v), v, 2, 0
  {
    var x := Source(v, sch[t].props[i]);
    if x.None? then {} else MentionedIn(sch, sch[t].props[i].kind, x.value)
  }

  function MentionedIn(sch: Schema, kind: Kind, v: Value): set<RowId>
    decreases Nest(v), v, 6, 0
  {
    match kind
    case One(elem, _) => MentionedSlot(sch, elem, v)
    case Many(elem) => if v.Vec? then MentionedRest(sch, elem, v, 0) else {}
    case _ => {}
  }

  function MentionedRest(sch: Schema, elem: Elem, v: Value, i: nat): set<RowId>
    requires v.Vec? && i <= |v.elems|
    decreases Nest(v), v, 5, |v.elems| - i
  {
    if i == |v.elems| then {} else MentionedSlot(sch, elem, v.elems[i]) + MentionedRest(sch, elem, v, i + 1)
  }

  function MentionedSlot(sch: Schema, elem: Elem, v: Value): set<RowId>
    decreases Nest(v), v, 5, 0
  {
    if elem.ScalarElem? then {}
    else if v.Managed? then {RowId(elem.target, v.id.key)}
    else Mentioned(sch, elem.target, v)
  }

  // ---- Sets of rows that a call stays in --------------------------------------------------------

  /** Keyless objects that are linked to may be handed on and overwritten. */
  predicate HandsOn(cfg: Config) {
    cfg.policy.UpdateModified? && cfg.passesKey
  }

  /** A set of rows, in which rows with keys from next on, which are new, count as members; linked says whether it is to
      hold the keyless objects that its members link to.
   */
  datatype Region = Region(rows: set<RowId>, next: ObjKey, linked: bool)

  predicate Inside(r: Region, id: RowId) {
    id in r.rows || r.next <= id.key
  }

  /** A slot links to no keyless object outside. */
  predicate SlotInside(sch: Schema, r: Region, elem: Elem, x: Cell) {
    r.linked && elem.LinkElem? && x.Link? && !HasKey(sch, elem.target) ==> Inside(r, RowId(elem.target, x.key))
  }

  predicate CellInside(sch: Schema, r: Region, kind: Kind, x: Cell) {
    match kind
    case One(elem, _) => SlotInside(sch, r, elem, x)
    case Many(elem) => x.List? ==> forall y | y in x.items :: SlotInside(sch, r, elem, y)
    case _ => true
  }

  /** Rows inside link to no keyless object outside. */
  ghost predicate Closed(sch: Schema, s: State, r: Region) {
    forall id, c: nat | id in s.rows && id.t in sch && c < |sch[id.t].props| && Inside(r, id) ::
      CellInside(sch, r, sch[id.t].props[c].kind, Get(s, id, c))
  }

  /** The rows that have one of the names, and the keyless ones among the mentioned, are inside. */
  ghost predicate Contains(sch: Schema, s: State, r: Region, names: set<Name>, mentioned: set<RowId>) {
    && (forall id | id in s.rows && NameOf(sch, s, id) in names :: Inside(r, id))
    && (forall id | id in mentioned && !HasKey(sch, id.t) && r.linked :: Inside(r, id))
  }

  ghost predicate Confined(cfg: Config, s: State, r: Region) {
    && WellFormed(cfg.schema, s) && Locked(cfg)
    && r.next <= s.next && Closed(cfg.schema, s, r) && (HandsOn(cfg) ==> r.linked)
  }

  /** Rows outside are as they were, and the region is still closed. */
  ghost predicate StaysIn(sch: Schema, s: State, s': State, r: Region) {
    && (forall id | id in s.rows && !Inside(r, id) :: id in s'.rows && s'.rows[id] == s.rows[id])
    && Closed(sch, s', r)
  }

  lemma StaysTrans(sch: Schema, s: State, s1: State, s2: State, r: Region)
    requires StaysIn(sch, s, s1, r) && StaysIn(sch, s1, s2, r)
    ensures StaysIn(sch, s, s2, r)
  {
    hide Closed;
  }

  lemma ContainsLater(cfg: Config, s: State, s': State, r: Region, names: set<Name>, mentioned: set<RowId>)
    requires Contains(cfg.schema, s, r, names, mentioned) && Safe(cfg, s, s') && Locked(cfg) && r.next <= s.next
    ensures Contains(cfg.schema, s', r, names, mentioned)
  {
    hide WellFormed, Unique;
    forall id | id in s'.rows && NameOf(cfg.schema, s', id) in names
      ensures Inside(r, id)
    {
      assert id in s.rows ==> NameOf(cfg.schema, s', id) == NameOf(cfg.schema, s, id);
    }
  }

  lemma ContainsPart(sch: Schema, s: State, r: Region, names: set<Name>, mentioned: set<RowId>, names': set<Name>,
                     mentioned': set<RowId>)
    requires Contains(sch, s, r, names, mentioned) && names' <= names && mentioned' <= mentioned
    ensures Contains(sch, s, r, names', mentioned')
  {
  }

  lemma PutStays(sch: Schema, s: State, id: RowId, c: nat, kind: Kind, x: Cell, w: Write, r: Region)
    requires WellFormed(sch, s) && Closed(sch, s, r) && id in s.rows && Inside(r, id)
    requires id.t in sch && c < |sch[id.t].props| && sch[id.t].props[c].kind == kind && CellInside(sch, r, kind, x)
    ensures StaysIn(sch, s, s, r) && StaysIn(sch, s, Put(s, id, c, x, w), r)
  {
    hide CellInside;
    var s' := Put(s, id, c, x, w);
    forall id', c': nat | id' in s'.rows && id'.t in sch && c' < |sch[id'.t].props| && Inside(r, id')
      ensures CellInside(sch, r, sch[id'.t].props[c'].kind, Get(s', id', c'))
    {
      assert Get(s', id', c') == if id' == id && c' == c then x else Get(s, id', c');
    }
  }

  // ---- Along the recursion ----------------------------------------------------------------------

  /** A create, also one that fails, changes no existing row outside, and the object it gives is inside unless it has
      a key.
   */
  lemma {:induction false} CreateStays(cfg: Config, s: State, r: Region, t: TypeName, v: Value,
                                       current: Option<ObjKey>)
    requires Confined(cfg, s, r) && t in cfg.schema
    requires Contains(cfg.schema, s, r, Names(cfg.schema, t, v), Mentioned(cfg.schema, t, v))
    requires cfg.policy.UpdateModified? && current.Some? && !HasKey(cfg.schema, t) ==>
               Inside(r, RowId(t, current.value))
    ensures var st := Create(cfg, s, t, v, current);
            && StaysIn(cfg.schema, s, st.s, r)
            && (st.r.Ok? && !HasKey(cfg.schema, t) ==> Inside(r, RowId(t, st.r.value)))
    decreases Nest(v), v, 3, 0
  {
    hide Open, Populate, WellFormed, Unique, Closed, Contains;
    var o := Open(cfg, s, t, v, current);
    OpenStays(cfg, s, r, t, v, current);
    OpenSafe(cfg, s, t, v, current);
    if o.r.Ok? {
      if v.Dict? {
        var names, mentioned := NamesFrom(cfg.schema, t, v, 0), MentionedFrom(cfg.schema, t, v, 0);
        ContainsPart(cfg.schema, s, r, Names(cfg.schema, t, v), Mentioned(cfg.schema, t, v), names, mentioned);
        ContainsLater(cfg, s, o.s, r, names, mentioned);
        PopulateStays(cfg, o.s, r, t, o.r.value, v, 0);
        StaysTrans(cfg.schema, s, o.s, Populate(cfg, o.s, t, o.r.value, v, 0).s, r);
      } else {
        NothingIsSet(cfg, o.s, t, o.r.value, v, 0);
      }
    }
  }

  lemma {:induction false} NothingIsSet(cfg: Config, s: State, t: TypeName, row: Opened, v: Value, i: nat)
    requires t in cfg.schema && i <= |cfg.schema[t].props| && !v.Dict?
    ensures Populate(cfg, s, t, row, v, i).s == s
    decreases |cfg.schema[t].props| - i
  {
    if i < |cfg.schema[t].props| {
      NothingIsSet(cfg, s, t, row, v, i + 1);
    }
  }

  lemma OpenStays(cfg: Config, s: State, r: Region, t: TypeName, v: Value, current: Option<ObjKey>)
    requires Confined(cfg, s, r) && t in cfg.schema
    requires Contains(cfg.schema, s, r, Names(cfg.schema, t, v), Mentioned(cfg.schema, t, v))
    requires cfg.policy.UpdateModified? && current.Some? && !HasKey(cfg.schema, t) ==>
               Inside(r, RowId(t, current.value))
    ensures var o := Open(cfg, s, t, v, current);
            && StaysIn(cfg.schema, s, o.s, r)
            && (o.r.Ok? ==> Inside(r, RowId(t, o.r.value.key)))
  {
    hide RowOk;
    var o := Open(cfg, s, t, v, current);
    if o.s != s {
      AddRowStays(cfg.schema, s, r, t, o.s.rows[RowId(t, s.next)]);
    }
    if o.r.Ok? && o.s == s && HasKey(cfg.schema, t) {
      assert NameOf(cfg.schema, s, RowId(t, o.r.value.key)) in Names(cfg.schema, t, v);
    }
  }

  lemma AddRowStays(sch: Schema, s: State, r: Region, t: TypeName, row: Row)
    requires WellFormed(sch, s) && Closed(sch, s, r) && t in sch && |row| == |sch[t].props|
    requires forall c | 0 <= c < |row| :: row[c] == Initial(sch[t].props[c].kind) || (sch[t].pk == Some(c))
    ensures StaysIn(sch, s, AddRow(s, t, row), r)
  {
    hide RowOk;
    var s' := AddRow(s, t, row);
    forall id, c: nat | id in s'.rows && id.t in sch && c < |sch[id.t].props| && Inside(r, id)
      ensures CellInside(sch, r, sch[id.t].props[c].kind, Get(s', id, c))
    {
      assert id != RowId(t, s.next) ==> Get(s', id, c) == Get(s, id, c);
      assert sch[id.t].pk == Some(c) ==> PrimaryKind(sch[id.t].props[c].kind);
    }
  }

  lemma {:induction false} PopulateStays(cfg: Config, s: State, r: Region, t: TypeName, row: Opened, v: Value, i: nat)
    requires Confined(cfg, s, r) && t in cfg.schema && i <= |cfg.schema[t].props| && v.Dict?
    requires RowId(t, row.key) in s.rows && row.skipPrimary && Inside(r, RowId(t, row.key))
    requires Contains(cfg.schema, s, r, NamesFrom(cfg.schema, t, v, i), MentionedFrom(cfg.schema, t, v, i))
    ensures StaysIn(cfg.schema, s, Populate(cfg, s, t, row, v, i).s, r)
    decreases Nest(v), v, 2, |cfg.schema[t].props| - i
  {
    hide PopulateOne, WellFormed, Unique, Closed, Contains;
    if i < |cfg.schema[t].props| {
      var names, mentioned := NamesFrom(cfg.schema, t, v, i), MentionedFrom(cfg.schema, t, v, i);
      var p := PopulateOne(cfg, s, t, row, v, i);
      ContainsPart(cfg.schema, s, r, names, mentioned, PropNames(cfg.schema, t, v, i),
                   MentionedAt(cfg.schema, t, v, i));
      PopulateOneStays(cfg, s, r, t, row, v, i);
      PopulateOneSafe(cfg, s, t, row, v, i);
      if p.r.Ok? {
        ContainsPart(cfg.schema, s, r, names, mentioned, NamesFrom(cfg.schema, t, v, i + 1),
                     MentionedFrom(cfg.schema, t, v, i + 1));
        ContainsLater(cfg, s, p.s, r, NamesFrom(cfg.schema, t, v, i + 1), MentionedFrom(cfg.schema, t, v, i + 1));
        PopulateStays(cfg, p.s, r, t, row, v, i + 1);
        StaysTrans(cfg.schema, s, p.s, Populate(cfg, p.s, t, row, v, i + 1).s, r);
      }
    } else {
      StaysSame(cfg.schema, s, r);
    }
  }

  lemma StaysSame(sch: Schema, s: State, r: Region)
    requires Closed(sch, s, r)
    ensures StaysIn(sch, s, s, r)
  {
  }

  lemma {:induction false} PopulateOneStays(cfg: Config, s: State, r: Region, t: TypeName, row: Opened, v: Value,
                                            i: nat)
    requires Confined(cfg, s, r) && t in cfg.schema && i < |cfg.schema[t].props| && v.Dict?
    requires RowId(t, row.key) in s.rows && row.skipPrimary && Inside(r, RowId(t, row.key))
    requires Contains(cfg.schema, s, r, PropNames(cfg.schema, t, v, i), MentionedAt(cfg.schema, t, v, i))
    ensures StaysIn(cfg.schema, s, PopulateOne(cfg, s, t, row, v, i).s, r)
    decreases Nest(v), v, 1, 0
  {
    hide SetPropertyImpl, WellFormed, Unique, Closed, Contains;
    var prop := cfg.schema[t].props[i];
    StaysSame(cfg.schema, s, r);
    if cfg.schema[t].pk != Some(i) {
      if prop.name in v.fields {
        SetPropertyStays(cfg, s, r, RowId(t, row.key), i, prop.kind, v.fields[prop.name], false);
      } else if prop.default.Some? {
        SetPropertyStays(cfg, s, r, RowId(t, row.key), i, prop.kind, prop.default.value, true);
      }
    }
  }

  lemma {:induction false} SetPropertyStays(cfg: Config, s: State, r: Region, id: RowId, c: nat, kind: Kind, v: Value,
                                            isDefault: bool)
    requires Confined(cfg, s, r) && Writable(cfg, s, id, c, kind) && TargetsIn(kind, cfg.schema.Keys) && Inside(r, id)
    requires Contains(cfg.schema, s, r, ValueNames(cfg.schema, kind, v), MentionedIn(cfg.schema, kind, v))
    ensures StaysIn(cfg.schema, s, SetPropertyImpl(cfg, s, id, c, kind, v, isDefault).s, r)
    decreases Nest(v), v, 6, 0
  {
    hide AssignList, Unbox, WellFormed, Unique, Contains;
    if kind.Many? {
      AssignListStays(cfg, s, r, id, c, kind.elem, v);
    } else if kind.One? {
      PutStays(cfg.schema, s, id, c, kind, NullCell, Assigned(Loc(id, c), Get(s, id, c), NullCell), r);
      if !(kind.nullable && v.Null?) {
        assert CellInside(cfg.schema, r, kind, Get(s, id, c));
        var u := Unbox(cfg, s, kind.elem, v, Get(s, id, c), false);
        UnboxStays(cfg, s, r, kind.elem, v, Get(s, id, c), false);
        UnboxSafe(cfg, s, kind.elem, v, Get(s, id, c), false);
        if u.r.Ok? {
          var w := Assigned(Loc(id, c), Get(u.s, id, c), u.r.value);
          PutStays(cfg.schema, u.s, id, c, kind, u.r.value, w, r);
          StaysTrans(cfg.schema, s, u.s, Put(u.s, id, c, u.r.value, w), r);
        }
      }
    } else {
      StaysSame(cfg.schema, s, r);
    }
  }

  lemma {:induction false} UnboxStays(cfg: Config, s: State, r: Region, elem: Elem, v: Value, current: Cell,
                                      inList: bool)
    requires Confined(cfg, s, r) && (elem.LinkElem? ==> elem.target in cfg.schema)
    requires SlotInside(cfg.schema, r, elem, current)
    requires Contains(cfg.schema, s, r, SlotNames(cfg.schema, elem, v), MentionedSlot(cfg.schema, elem, v))
    ensures var u := Unbox(cfg, s, elem, v, current, inList);
            StaysIn(cfg.schema, s, u.s, r) && (u.r.Ok? ==> SlotInside(cfg.schema, r, elem, u.r.value))
    decreases Nest(v), v, 4, 0
  {
    hide Create, WellFormed, Unique, Closed;
    StaysSame(cfg.schema, s, r);
    if elem.LinkElem? && !v.Managed? {
      CreateStays(cfg, s, r, elem.target, v, Passed(cfg, current));
    }
  }

  lemma {:induction false} AssignListStays(cfg: Config, s: State, r: Region, id: RowId, c: nat, elem: Elem, v: Value)
    requires Confined(cfg, s, r) && Writable(cfg, s, id, c, Many(elem)) && Inside(r, id)
    requires elem.LinkElem? ==> elem.target in cfg.schema
    requires Contains(cfg.schema, s, r, ValueNames(cfg.schema, Many(elem), v), MentionedIn(cfg.schema, Many(elem), v))
    ensures StaysIn(cfg.schema, s, AssignList(cfg, s, id, c, elem, v).s, r)
    decreases Nest(v), v, 5, if v.Vec? then |v.elems| + 1 else 0
  {
    hide AssignFrom, Trim, WellFormed, Unique, Closed, Contains;
    var s1 := Prepared(cfg, s, id, c);
    ClearSafe(cfg, s, id, c, elem);
    PutStays(cfg.schema, s, id, c, Many(elem), List([]), Cleared(Loc(id, c)), r);
    if v.Vec? {
      var sz := Reusable(cfg, s, id, c);
      var names, mentioned := RestNames(cfg.schema, elem, v, 0), MentionedRest(cfg.schema, elem, v, 0);
      var l := AssignFrom(cfg, s1, id, c, elem, v, 0, sz);
      SafeSame(cfg, s);
      ContainsPart(cfg.schema, s, r, ValueNames(cfg.schema, Many(elem), v), MentionedIn(cfg.schema, Many(elem), v),
                   names, mentioned);
      ContainsLater(cfg, s, s1, r, names, mentioned);
      AssignFromStays(cfg, s1, r, id, c, elem, v, 0, sz);
      AssignFromSafe(cfg, s1, id, c, elem, v, 0, sz);
      StaysTrans(cfg.schema, s, s1, l.s, r);
      if l.r.Ok? {
        TrimStays(cfg, l.s, r, id, c, elem, |v.elems|, sz);
        StaysTrans(cfg.schema, s, l.s, Trim(l.s, id, c, |v.elems|, sz).s, r);
      }
    }
  }

  lemma SafeSame(cfg: Config, s: State)
    requires WellFormed(cfg.schema, s)
    ensures Safe(cfg, s, s)
  {
  }

  lemma {:induction false} TrimStays(cfg: Config, s: State, r: Region, id: RowId, c: nat, elem: Elem, index: nat,
                                     sz: nat)
    requires Confined(cfg, s, r) && Writable(cfg, s, id, c, Many(elem)) && Inside(r, id)
    ensures StaysIn(cfg.schema, s, Trim(s, id, c, index, sz).s, r)
    decreases sz
  {
    hide WellFormed, Unique;
    StaysSame(cfg.schema, s, r);
    if index < sz <= |Items(s, id, c)| {
      var s1 := RemoveSlot(s, id, c, sz - 1);
      var w := Removed(Loc(id, c), sz - 1);
      assert CellInside(cfg.schema, r, Many(elem), Get(s, id, c));
      assert CellInside(cfg.schema, r, Many(elem), Get(s1, id, c));
      RemoveSlotSafe(cfg, s, id, c, elem, sz - 1);
      PutStays(cfg.schema, s, id, c, Many(elem), List(Items(s, id, c)[..sz - 1] + Items(s, id, c)[sz..]), w, r);
      TrimStays(cfg, s1, r, id, c, elem, index, sz - 1);
      StaysTrans(cfg.schema, s, s1, Trim(s1, id, c, index, sz - 1).s, r);
    }
  }

  lemma {:induction false} AssignFromStays(cfg: Config, s: State, r: Region, id: RowId, c: nat, elem: Elem, v: Value,
                                           i: nat, sz: nat)
    requires Confined(cfg, s, r) && Writable(cfg, s, id, c, Many(elem)) && Inside(r, id)
    requires elem.LinkElem? ==> elem.target in cfg.schema
    requires v.Vec? && i <= |v.elems|
    requires Contains(cfg.schema, s, r, RestNames(cfg.schema, elem, v, i), MentionedRest(cfg.schema, elem, v, i))
    ensures StaysIn(cfg.schema, s, AssignFrom(cfg, s, id, c, elem, v, i, sz).s, r)
    decreases Nest(v), v, 5, |v.elems| - i
  {
    hide AssignOne, WellFormed, Unique, Closed, Contains;
    StaysSame(cfg.schema, s, r);
    if i < |v.elems| {
      var names, mentioned := RestNames(cfg.schema, elem, v, i), MentionedRest(cfg.schema, elem, v, i);
      var names', mentioned' := RestNames(cfg.schema, elem, v, i + 1), MentionedRest(cfg.schema, elem, v, i + 1);
      var a := AssignOne(cfg, s, id, c, elem, v, i, sz);
      ContainsPart(cfg.schema, s, r, names, mentioned, SlotNames(cfg.schema, elem, v.elems[i]),
                   MentionedSlot(cfg.schema, elem, v.elems[i]));
      AssignOneStays(cfg, s, r, id, c, elem, v, i, sz);
      AssignOneSafe(cfg, s, id, c, elem, v, i, sz);
      if a.r.Ok? {
        ContainsPart(cfg.schema, s, r, names, mentioned, names', mentioned');
        ContainsLater(cfg, s, a.s, r, names', mentioned');
        AssignFromStays(cfg, a.s, r, id, c, elem, v, i + 1, sz);
        StaysTrans(cfg.schema, s, a.s, AssignFrom(cfg, a.s, id, c, elem, v, i + 1, sz).s, r);
      }
    }
  }

  lemma {:induction false} AssignOneStays(cfg: Config, s: State, r: Region, id: RowId, c: nat, elem: Elem, v: Value,
                                          i: nat, sz: nat)
    requires Confined(cfg, s, r) && Writable(cfg, s, id, c, Many(elem)) && Inside(r, id)
    requires elem.LinkElem? ==> elem.target in cfg.schema
    requires v.Vec? && i < |v.elems|
    requires Contains(cfg.schema, s, r, SlotNames(cfg.schema, elem, v.elems[i]),
                      MentionedSlot(cfg.schema, elem, v.elems[i]))
    ensures StaysIn(cfg.schema, s, AssignOne(cfg, s, id, c, elem, v, i, sz).s, r)
    decreases Nest(v), v, 4, 1
  {
    hide Unbox, PlaceItem, WellFormed, Unique, Contains;
    StaysSame(cfg.schema, s, r);
    if !(i < sz && i >= |Items(s, id, c)|) {
      var before := if i < sz then Items(s, id, c)[i] else NullCell;
      var u := Unbox(cfg, s, elem, v.elems[i], before, true);
      assert CellInside(cfg.schema, r, Many(elem), Get(s, id, c));
      assert i < sz ==> before in Items(s, id, c);
      UnboxStays(cfg, s, r, elem, v.elems[i], before, true);
      UnboxSafe(cfg, s, elem, v.elems[i], before, true);
      if u.r.Ok? {
        PlaceStays(cfg, u.s, r, id, c, elem, before, u.r.value, i, sz);
        StaysTrans(cfg.schema, s, u.s, PlaceItem(u.s, id, c, before, u.r.value, i, sz).s, r);
      }
    }
  }

  lemma PlaceStays(cfg: Config, s: State, r: Region, id: RowId, c: nat, elem: Elem, before: Cell, x: Cell, i: nat,
                   sz: nat)
    requires WellFormed(cfg.schema, s) && Closed(cfg.schema, s, r)
    requires Writable(cfg, s, id, c, Many(elem)) && Inside(r, id) && SlotInside(cfg.schema, r, elem, x)
    ensures StaysIn(cfg.schema, s, PlaceItem(s, id, c, before, x, i, sz).s, r)
  {
    hide WellFormed, SlotInside;
    StaysSame(cfg.schema, s, r);
    var items := Items(s, id, c);
    assert CellInside(cfg.schema, r, Many(elem), Get(s, id, c));
    if i >= sz {
      PutStays(cfg.schema, s, id, c, Many(elem), List(items + [x]), Appended(Loc(id, c), x), r);
    } else if i < |items| {
      PutStays(cfg.schema, s, id, c, Many(elem), List(items[i := x]), SlotAssigned(Loc(id, c), i, items[i], x), r);
    }
  }

  // ---- Main result ------------------------------------------------------------------------------

  /** For any value, policy and context: let a set hold the existing rows that the value names, and the current one if
      it is to be overwritten. Where keyless objects are handed on let it also hold the keyless ones the value mentions,
      and with each row the keyless ones it links to. Then a create leaves every existing row outside the set as it is,
      also when it fails.
   */
  lemma OnlyReachedRowsChange(cfg: Config, s: State, rows: set<RowId>, t: TypeName, v: Value, current: Option<ObjKey>)
    requires WellFormed(cfg.schema, s) && Locked(cfg) && t in cfg.schema
    requires forall id | id in s.rows && NameOf(cfg.schema, s, id) in Names(cfg.schema, t, v) :: id in rows
    requires cfg.policy.UpdateModified? && current.Some? && !HasKey(cfg.schema, t) && current.value < s.next ==>
               RowId(t, current.value) in rows
    requires HandsOn(cfg) ==>
               && Closed(cfg.schema, s, Region(rows, s.next, true))
               && forall id | id in Mentioned(cfg.schema, t, v) && !HasKey(cfg.schema, id.t) && id.key < s.next ::
                    id in rows
    ensures var s' := Create(cfg, s, t, v, current).s;
            forall id | id in s.rows && id !in rows :: id in s'.rows && s'.rows[id] == s.rows[id]
  {
    CreateStays(cfg, s, Region(rows, s.next, HandsOn(cfg)), t, v, current);
  }

  /** In particular, where no keyless object is handed on only rows that the value names change. */
  lemma OnlyNamedRowsChange(cfg: Config, s: State, t: TypeName, v: Value, current: Option<ObjKey>)
    requires WellFormed(cfg.schema, s) && Locked(cfg) && t in cfg.schema && !HandsOn(cfg)
    requires HasKey(cfg.schema, t) || !cfg.policy.UpdateModified? || current.None?
    ensures var s' := Create(cfg, s, t, v, current).s;
            forall id | id in s.rows && NameOf(cfg.schema, s, id) !in Names(cfg.schema, t, v) ::
              id in s'.rows && s'.rows[id] == s.rows[id]
  {
    hide Create;
    var named := set id | id in s.rows && NameOf(cfg.schema, s, id) in Names(cfg.schema, t, v);
    OnlyReachedRowsChange(cfg, s, named, t, v, current);
  }
}
