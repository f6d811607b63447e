/** Completeness of new rows, for every value, policy and store, with or without primary keys and migrations: a row
    that a successful create makes got all its required properties.
 */
module UpsertComplete {
  import opened Store
  import opened Upsert
  import opened UpsertFrame

  /** Every required property but the key is given, by the value or by its default, and is not null. */
  ghost predicate GivesAll(sch: Schema, t: TypeName, v: Value)
    requires t in sch
  {
    forall i | 0 <= i < |sch[t].props| :: GivesProp(sch, t, v, i)
  }

  predicate GivesProp(sch: Schema, t: TypeName, v: Value, i: nat)
    requires t in sch && i < |sch[t].props|
  {
    var prop := sch[t].props[i];
    sch[t].pk != Some(i) && RejectsNull(prop.kind) ==>
      v.Dict? && (v.allowMissing || (Source(v, prop).Some? && !Source(v, prop).value.Null?))
  }

  /** A create that succeeds in making a row was given all the row requires. */
  lemma NewRowIsComplete(cfg: Config, s: State, t: TypeName, v: Value, current: Option<ObjKey>)
    requires t in cfg.schema && Create(cfg, s, t, v, current).r.Ok?
    requires Open(cfg, s, t, v, current).r.value.created
    ensures GivesAll(cfg.schema, t, v)
  {
    var o := Open(cfg, s, t, v, current);
    forall i | 0 <= i < |cfg.schema[t].props|
      ensures GivesProp(cfg.schema, t, v, i)
    {
      PopulateGives(cfg, o.s, t, o.r.value, v, 0, i);
    }
  }

  lemma {:induction false} PopulateGives(cfg: Config, s: State, t: TypeName, row: Opened, v: Value, i: nat, j: nat)
    requires t in cfg.schema && i <= j < |cfg.schema[t].props| && row.created
    requires Populate(cfg, s, t, row, v, i).r.Ok?
    ensures GivesProp(cfg.schema, t, v, j)
    decreases j - i
  {
    hide SetPropertyImpl;
    if i < j {
      PopulateGives(cfg, PopulateOne(cfg, s, t, row, v, i).s, t, row, v, i + 1, j);
    }
  }

  // ---- Every row below it -----------------------------------------------------------------------

  /** An object in the tree of a value: what was to become a row, and of which type. */
  datatype Node = Node(t: TypeName, v: Value)

  /** All objects in the tree below v, v included. */
  function Nodes(sch: Schema, t: TypeName, v: Value): set<Node>
    decreases Nest(v), v, 4, 0
  {
    {Node(t, v)} + if v.Dict? && t in sch then NodesFrom(sch, t, v, 0) else {}
  }

  function NodesFrom(sch: Schema, t: TypeName, v: Value, i: nat): set<Node>
    requires v.Dict? && t in sch && i <= |sch[t].props|
    decreases Nest(v), v, 3, |sch[t].props| - i
  {
    if i == |sch[t].props| then {} else NodesAt(sch, t, v, i) + NodesFrom(sch, t, v, i + 1)
  }

  function NodesAt(sch: Schema, t: TypeName, v: Value, i: nat): set<Node>
    requires v.Dict? && t in sch && i < |sch[t].props|
    decreases Nest(v), v, 2, 0
  {
    var x := Source(v, sch[t].props[i]);
    if x.None? then {} else ValueNodes(sch, sch[t].props[i].kind, x.value)
  }

  function ValueNodes(sch: Schema, kind: Kind, v: Value): set<Node>
    decreases Nest(v), v, 6, 0
  {
    match kind
    case One(elem, _) => SlotNodes(sch, elem, v)
    case Many(elem) => if v.Vec? then ElemNodes(sch, elem, v, 0) else {}
    case _ => {}
  }

  function ElemNodes(sch: Schema, elem: Elem, v: Value, i: nat): set<Node>
    requires v.Vec? && i <= |v.elems|
    decreases Nest(v), v, 5, |v.elems| - i
  {
    if i == |v.elems| then {} else SlotNodes(sch, elem, v.elems[i]) + ElemNodes(sch, elem, v, i + 1)
  }

  function SlotNodes(sch: Schema, elem: Elem, v: Value): set<Node>
    decreases Nest(v), v, 5, 0
  {
    if elem.LinkElem? then Nodes(sch, elem.target, v) else {}
  }

  /** The objects a create makes rows of, in order: the one it is called for, if it is new, and those below it. */
  function Made(cfg: Config, s: State, t: TypeName, v: Value, current: Option<ObjKey>): seq<Node>
    requires t in cfg.schema
    decreases Nest(v), v, 3, 0
  {
    var o := Open(cfg, s, t, v, current);
    if o.r.Err? then []
    else (if o.r.value.created then [Node(t, v)] else []) + MadeFrom(cfg, o.s, t, o.r.value, v, 0)
  }

  function MadeFrom(cfg: Config, s: State, t: TypeName, row: Opened, v: Value, i: nat): seq<Node>
    requires t in cfg.schema && i <= |cfg.schema[t].props|
    decreases Nest(v), v, 2, |cfg.schema[t].props| - i
  {
    if i == |cfg.schema[t].props| then []
    else MadeAt(cfg, s, t, row, v, i) + MadeFrom(cfg, PopulateOne(cfg, s, t, row, v, i).s, t, row, v, i + 1)
  }

  function MadeAt(cfg: Config, s: State, t: TypeName, row: Opened, v: Value, i: nat): seq<Node>
    requires t in cfg.schema && i < |cfg.schema[t].props|
    decreases Nest(v), v, 1, 0
  {
    var prop := cfg.schema[t].props[i];
    if prop.kind.LinkingObjects? || (row.skipPrimary && cfg.schema[t].pk == Some(i)) || !v.Dict? then []
    else if prop.name in v.fields then MadeValue(cfg, s, RowId(t, row.key), i, prop.kind, v.fields[prop.name])
    else if row.created && prop.default.Some? then
      MadeValue(cfg, s, RowId(t, row.key), i, prop.kind, prop.default.value)
    else []
  }

  function MadeValue(cfg: Config, s: State, id: RowId, c: nat, kind: Kind, v: Value): seq<Node>
    requires TargetsIn(kind, cfg.schema.Keys)
    decreases Nest(v), v, 6, 0
  {
    match kind
    case One(elem, nullable) => if nullable && v.Null? then [] else MadeSlot(cfg, s, elem, v, Get(s, id, c))
    case Many(elem) =>
      if v.Vec? then MadeElems(cfg, Prepared(cfg, s, id, c), id, c, elem, v, 0, Reusable(cfg, s, id, c)) else []
    case _ => []
  }

  function MadeElems(cfg: Config, s: State, id: RowId, c: nat, elem: Elem, v: Value, i: nat, sz: nat): seq<Node>
    requires elem.LinkElem? ==> elem.target in cfg.schema
    requires v.Vec? && i <= |v.elems|
    decreases Nest(v), v, 5, |v.elems| - i
  {
    if i == |v.elems| then []
    else
      var before := if i < sz && i < |Items(s, id, c)| then Items(s, id, c)[i] else NullCell;
      MadeSlot(cfg, s, elem, v.elems[i], before)
        + MadeElems(cfg, AssignOne(cfg, s, id, c, elem, v, i, sz).s, id, c, elem, v, i + 1, sz)
  }

  function MadeSlot(cfg: Config, s: State, elem: Elem, v: Value, current: Cell): seq<Node>
    requires elem.LinkElem? ==> elem.target in cfg.schema
    decreases Nest(v), v, 4, 0
  {
    if elem.LinkElem? && !v.Managed? then Made(cfg, s, elem.target, v, Passed(cfg, current)) else []
  }

  function RowsOf(made: seq<Node>, next: ObjKey): set<RowId> {
    set k | 0 <= k < |made| :: RowId(made[k].t, next + k)
  }

  /** The rows that are new are those of the objects made, one each, under the next free keys; each object is one of the
      given nodes and gave all that its row requires.
   */
  ghost predicate Makes(sch: Schema, s: State, s': State, made: seq<Node>, nodes: set<Node>) {
    && s'.next == s.next + |made|
    && s'.rows.Keys == s.rows.Keys + RowsOf(made, s.next)
    && forall n | n in made :: n in nodes && n.t in sch && GivesAll(sch, n.t, n.v)
  }

  lemma MakesTrans(sch: Schema, s: State, s1: State, s2: State, made1: seq<Node>, made2: seq<Node>,
                   nodes1: set<Node>, nodes2: set<Node>)
    requires Makes(sch, s, s1, made1, nodes1) && Makes(sch, s1, s2, made2, nodes2)
    ensures Makes(sch, s, s2, made1 + made2, nodes1 + nodes2)
  {
    hide GivesAll;
    RowsOfBoth(made1, made2, s.next);
  }

  lemma RowsOfBoth(made1: seq<Node>, made2: seq<Node>, next: ObjKey)
    ensures RowsOf(made1 + made2, next) == RowsOf(made1, next) + RowsOf(made2, next + |made1|)
  {
    var both := made1 + made2;
    forall id | id in RowsOf(made2, next + |made1|)
      ensures id in RowsOf(both, next)
    {
      var k :| 0 <= k < |made2| && id == RowId(made2[k].t, next + |made1| + k);
      assert both[|made1| + k] == made2[k];
    }
    forall id | id in RowsOf(made1, next)
      ensures id in RowsOf(both, next)
    {
      var k :| 0 <= k < |made1| && id == RowId(made1[k].t, next + k);
      assert both[k] == made1[k];
    }
    forall id | id in RowsOf(both, next)
      ensures id in RowsOf(made1, next) + RowsOf(made2, next + |made1|)
    {
      var k :| 0 <= k < |both| && id == RowId(both[k].t, next + k);
      if k >= |made1| {
        assert both[k] == made2[k - |made1|] && id == RowId(made2[k - |made1|].t, next + |made1| + (k - |made1|));
      }
    }
  }

  /** A step that makes no row. */
  lemma MakesNone(sch: Schema, s: State, s': State, nodes: set<Node>)
    requires s'.next == s.next && s'.rows.Keys == s.rows.Keys
    ensures Makes(sch, s, s', [], nodes)
  {
  }

  lemma MakesThenNone(sch: Schema, s: State, s1: State, s2: State, made: seq<Node>, nodes: set<Node>)
    requires Makes(sch, s, s1, made, nodes) && s2.next == s1.next && s2.rows.Keys == s1.rows.Keys
    ensures Makes(sch, s, s2, made, nodes)
  {
  }

  /** After a successful create of any value, the rows that are new are exactly those of the objects it made on the way,
      and each of these objects gave all that its row requires.
   */
  lemma {:induction false} EveryNewRowIsComplete(cfg: Config, s: State, t: TypeName, v: Value,
                                                 current: Option<ObjKey>)
    requires t in cfg.schema && Create(cfg, s, t, v, current).r.Ok?
    ensures Makes(cfg.schema, s, Create(cfg, s, t, v, current).s, Made(cfg, s, t, v, current), Nodes(cfg.schema, t, v))
    decreases Nest(v), v, 3, 0
  {
    hide Populate, GivesAll, Makes;
    var o := Open(cfg, s, t, v, current);
    var st := Create(cfg, s, t, v, current);
    var own := if o.r.value.created then [Node(t, v)] else [];
    OpenMakes(cfg, s, t, v, current);
    if v.Dict? {
      PopulateMakes(cfg, o.s, t, o.r.value, v, 0);
      MakesTrans(cfg.schema, s, o.s, st.s, own, MadeFrom(cfg, o.s, t, o.r.value, v, 0), {Node(t, v)},
                 NodesFrom(cfg.schema, t, v, 0));
    } else {
      PopulateNothing(cfg, o.s, t, o.r.value, v, 0);
      assert own + [] == own && {Node(t, v)} + {} == {Node(t, v)};
    }
  }

  lemma OpenMakes(cfg: Config, s: State, t: TypeName, v: Value, current: Option<ObjKey>)
    requires t in cfg.schema && Create(cfg, s, t, v, current).r.Ok?
    ensures var o := Open(cfg, s, t, v, current);
            Makes(cfg.schema, s, o.s, if o.r.value.created then [Node(t, v)] else [], {Node(t, v)})
  {
    hide Populate, GivesAll;
    var o := Open(cfg, s, t, v, current);
    if o.r.value.created {
      NewRowIsComplete(cfg, s, t, v, current);
      assert [Node(t, v)][0] == Node(t, v);
      assert RowsOf([Node(t, v)], s.next) == {RowId(t, s.next)};
    }
  }

  /** Nothing is set from a value that is no dictionary. */
  lemma {:induction false} PopulateNothing(cfg: Config, s: State, t: TypeName, row: Opened, v: Value, i: nat)
    requires t in cfg.schema && i <= |cfg.schema[t].props| && !v.Dict?
    requires Populate(cfg, s, t, row, v, i).r.Ok?
    ensures Populate(cfg, s, t, row, v, i).s == s && MadeFrom(cfg, s, t, row, v, i) == []
    decreases |cfg.schema[t].props| - i
  {
    if i < |cfg.schema[t].props| {
      PopulateNothing(cfg, s, t, row, v, i + 1);
    }
  }

  lemma {:induction false} PopulateMakes(cfg: Config, s: State, t: TypeName, row: Opened, v: Value, i: nat)
    requires t in cfg.schema && i <= |cfg.schema[t].props| && v.Dict?
    requires Populate(cfg, s, t, row, v, i).r.Ok?
    ensures Makes(cfg.schema, s, Populate(cfg, s, t, row, v, i).s, MadeFrom(cfg, s, t, row, v, i),
                  NodesFrom(cfg.schema, t, v, i))
    decreases Nest(v), v, 2, |cfg.schema[t].props| - i
  {
    hide PopulateOne, MadeAt, Makes;
    if i < |cfg.schema[t].props| {
      var p := PopulateOne(cfg, s, t, row, v, i);
      PopulateOneMakes(cfg, s, t, row, v, i);
      PopulateMakes(cfg, p.s, t, row, v, i + 1);
      MakesTrans(cfg.schema, s, p.s, Populate(cfg, p.s, t, row, v, i + 1).s, MadeAt(cfg, s, t, row, v, i),
                 MadeFrom(cfg, p.s, t, row, v, i + 1), NodesAt(cfg.schema, t, v, i),
                 NodesFrom(cfg.schema, t, v, i + 1));
    } else {
      MakesNone(cfg.schema, s, s, {});
    }
  }

  lemma {:induction false} PopulateOneMakes(cfg: Config, s: State, t: TypeName, row: Opened, v: Value, i: nat)
    requires t in cfg.schema && i < |cfg.schema[t].props| && v.Dict?
    requires PopulateOne(cfg, s, t, row, v, i).r.Ok?
    ensures Makes(cfg.schema, s, PopulateOne(cfg, s, t, row, v, i).s, MadeAt(cfg, s, t, row, v, i),
                  NodesAt(cfg.schema, t, v, i))
    decreases Nest(v), v, 1, 0
  {
    hide SetPropertyImpl, Makes, MadeValue;
    var prop := cfg.schema[t].props[i];
    MakesNone(cfg.schema, s, s, NodesAt(cfg.schema, t, v, i));
    if !prop.kind.LinkingObjects? && !(row.skipPrimary && cfg.schema[t].pk == Some(i)) {
      if prop.name in v.fields {
        SetPropertyMakes(cfg, s, RowId(t, row.key), i, prop.kind, v.fields[prop.name], false);
      } else if row.created && prop.default.Some? {
        SetPropertyMakes(cfg, s, RowId(t, row.key), i, prop.kind, prop.default.value, true);
      }
    }
  }

  lemma {:induction false} SetPropertyMakes(cfg: Config, s: State, id: RowId, c: nat, kind: Kind, v: Value,
                                            isDefault: bool)
    requires TargetsIn(kind, cfg.schema.Keys) && SetPropertyImpl(cfg, s, id, c, kind, v, isDefault).r.Ok?
    ensures Makes(cfg.schema, s, SetPropertyImpl(cfg, s, id, c, kind, v, isDefault).s,
                  MadeValue(cfg, s, id, c, kind, v), ValueNodes(cfg.schema, kind, v))
    decreases Nest(v), v, 6, 0
  {
    hide AssignList, Unbox, Makes, MadeSlot;
    if kind.Many? {
      AssignListMakes(cfg, s, id, c, kind.elem, v);
    } else if kind.One? {
      var nodes := ValueNodes(cfg.schema, kind, v);
      MakesNone(cfg.schema, s, s, nodes);
      MakesNone(cfg.schema, s, Assign(s, id, c, NullCell), nodes);
      if !(kind.nullable && v.Null?) {
        var u := Unbox(cfg, s, kind.elem, v, Get(s, id, c), false);
        UnboxMakes(cfg, s, kind.elem, v, Get(s, id, c), false);
        MakesThenNone(cfg.schema, s, u.s, Assign(u.s, id, c, u.r.value),
                      MadeSlot(cfg, s, kind.elem, v, Get(s, id, c)), nodes);
      }
    }
  }

  lemma {:induction false} UnboxMakes(cfg: Config, s: State, elem: Elem, v: Value, current: Cell, inList: bool)
    requires elem.LinkElem? ==> elem.target in cfg.schema
    requires Unbox(cfg, s, elem, v, current, inList).r.Ok?
    ensures Makes(cfg.schema, s, Unbox(cfg, s, elem, v, current, inList).s, MadeSlot(cfg, s, elem, v, current),
                  SlotNodes(cfg.schema, elem, v))
    decreases Nest(v), v, 4, 0
  {
    hide Create, Makes, Made;
    if elem.LinkElem? && !v.Managed? {
      EveryNewRowIsComplete(cfg, s, elem.target, v, Passed(cfg, current));
    } else {
      MakesNone(cfg.schema, s, s, SlotNodes(cfg.schema, elem, v));
    }
  }

  lemma {:induction false} AssignListMakes(cfg: Config, s: State, id: RowId, c: nat, elem: Elem, v: Value)
    requires elem.LinkElem? ==> elem.target in cfg.schema
    requires AssignList(cfg, s, id, c, elem, v).r.Ok?
    ensures Makes(cfg.schema, s, AssignList(cfg, s, id, c, elem, v).s, MadeValue(cfg, s, id, c, Many(elem), v),
                  ValueNodes(cfg.schema, Many(elem), v))
    decreases Nest(v), v, 5, if v.Vec? then |v.elems| + 1 else 0
  {
    hide AssignFrom, Trim, Makes, MadeElems;
    var nodes := ValueNodes(cfg.schema, Many(elem), v);
    var s1 := Prepared(cfg, s, id, c);
    MakesNone(cfg.schema, s, s, nodes);
    MakesNone(cfg.schema, s, Clear(s, id, c), nodes);
    MakesNone(cfg.schema, s, s1, {});
    if v.Vec? {
      var sz := Reusable(cfg, s, id, c);
      var l := AssignFrom(cfg, s1, id, c, elem, v, 0, sz);
      var made := MadeElems(cfg, s1, id, c, elem, v, 0, sz);
      AssignFromMakes(cfg, s1, id, c, elem, v, 0, sz);
      MakesTrans(cfg.schema, s, s1, l.s, [], made, {}, nodes);
      assert [] + made == made && {} + nodes == nodes;
      TrimKeys(l.s, id, c, |v.elems|, sz);
      MakesThenNone(cfg.schema, s, l.s, Trim(l.s, id, c, |v.elems|, sz).s, made, nodes);
    }
  }

  lemma {:induction false} TrimKeys(s: State, id: RowId, c: nat, index: nat, sz: nat)
    ensures var s' := Trim(s, id, c, index, sz).s;
            s'.rows.Keys == s.rows.Keys && s'.next == s.next
    decreases sz
  {
    if index < sz <= |Items(s, id, c)| {
      var s1 := RemoveSlot(s, id, c, sz - 1);
      assert s1.rows.Keys == s.rows.Keys;
      TrimKeys(s1, id, c, index, sz - 1);
    }
  }

  lemma {:induction false} AssignFromMakes(cfg: Config, s: State, id: RowId, c: nat, elem: Elem, v: Value, i: nat,
                                           sz: nat)
    requires elem.LinkElem? ==> elem.target in cfg.schema
    requires v.Vec? && i <= |v.elems| && AssignFrom(cfg, s, id, c, elem, v, i, sz).r.Ok?
    ensures Makes(cfg.schema, s, AssignFrom(cfg, s, id, c, elem, v, i, sz).s,
                  MadeElems(cfg, s, id, c, elem, v, i, sz), ElemNodes(cfg.schema, elem, v, i))
    decreases Nest(v), v, 5, |v.elems| - i
  {
    hide AssignOne, Makes, MadeSlot;
    if i < |v.elems| {
      var before := if i < sz && i < |Items(s, id, c)| then Items(s, id, c)[i] else NullCell;
      var a := AssignOne(cfg, s, id, c, elem, v, i, sz);
      AssignOneMakes(cfg, s, id, c, elem, v, i, sz);
      AssignFromMakes(cfg, a.s, id, c, elem, v, i + 1, sz);
      MakesTrans(cfg.schema, s, a.s, AssignFrom(cfg, a.s, id, c, elem, v, i + 1, sz).s,
                 MadeSlot(cfg, s, elem, v.elems[i], before), MadeElems(cfg, a.s, id, c, elem, v, i + 1, sz),
                 SlotNodes(cfg.schema, elem, v.elems[i]), ElemNodes(cfg.schema, elem, v, i + 1));
    } else {
      MakesNone(cfg.schema, s, s, {});
    }
  }

  lemma {:induction false} AssignOneMakes(cfg: Config, s: State, id: RowId, c: nat, elem: Elem, v: Value, i: nat,
                                          sz: nat)
    requires elem.LinkElem? ==> elem.target in cfg.schema
    requires v.Vec? && i < |v.elems| && AssignOne(cfg, s, id, c, elem, v, i, sz).r.Ok?
    ensures var before := if i < sz && i < |Items(s, id, c)| then Items(s, id, c)[i] else NullCell;
            Makes(cfg.schema, s, AssignOne(cfg, s, id, c, elem, v, i, sz).s,
                  MadeSlot(cfg, s, elem, v.elems[i], before), SlotNodes(cfg.schema, elem, v.elems[i]))
    decreases Nest(v), v, 4, 1
  {
    hide Unbox, Makes, MadeSlot;
    var before := if i < sz then Items(s, id, c)[i] else NullCell;
    var u := Unbox(cfg, s, elem, v.elems[i], before, true);
    UnboxMakes(cfg, s, elem, v.elems[i], before, true);
    var s' := PlaceItem(u.s, id, c, before, u.r.value, i, sz).s;
    assert s'.rows.Keys == u.s.rows.Keys && s'.next == u.s.next;
    MakesThenNone(cfg.schema, s, u.s, s', MadeSlot(cfg, s, elem, v.elems[i], before),
                  SlotNodes(cfg.schema, elem, v.elems[i]));
  }
}
