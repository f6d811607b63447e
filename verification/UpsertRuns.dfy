/** Runs of creates, single sets and batch sets, with failures caught, and what holds at their end. */
module UpsertRuns {
  import opened Store
  import opened Upsert
  import opened UpsertSafety
  import opened ResultsBatch
  import opened UpsertReplay

  datatype Op =
    | CreateObject(t: TypeName, v: Value, policy: Policy, current: Option<ObjKey>)
    | SetValue(id: RowId, name: string, v: Value, policy: Policy)
    | SetValues(t: TypeName, query: Query, name: string, v: Value)

  /** Every operation of a run brings its own policy. */
  function Apply(cfg: Config, s: State, op: Op): State {
    match op
    case CreateObject(t, v, policy, current) =>
      if t in cfg.schema then Create(cfg.(policy := policy), s, t, v, current).s else s
    case SetValue(id, name, v, policy) =>
      if id.t in cfg.schema then SetProperty(cfg.(policy := policy), s, id, name, v).s else s
    case SetValues(t, query, name, v) =>
      if t in cfg.schema then SetAll(cfg, s, t, query, name, v).s else s
  }

  function Run(cfg: Config, s: State, ops: seq<Op>): State
    decreases |ops|
  {
    if ops == [] then s else Run(cfg, Apply(cfg, s, ops[0]), ops[1..])
  }

  /** Outside migrations every operation leaves keys alone. In a migration creates and single sets do if they
      update and set no key, and batch sets if they set a scalar that is no key.
   */
  predicate LeavesKeys(cfg: Config, op: Op) {
    !cfg.migrating ||
    match op
    case CreateObject(_, _, policy, _) => !policy.ForceCreate?
    case SetValue(id, name, _, policy) =>
      id.t in cfg.schema ==>
        !policy.ForceCreate? && PropertyForName(cfg.schema[id.t], name) != cfg.schema[id.t].pk
    case SetValues(t, _, name, _) =>
      t in cfg.schema ==>
        var c := PropertyForName(cfg.schema[t], name);
        c != cfg.schema[t].pk && (c.Some? ==> ScalarKind(cfg.schema[t].props[c.value].kind))
  }

  predicate ScalarKind(kind: Kind) {
    kind.One? && kind.elem.ScalarElem?
  }

  lemma ApplySafe(cfg: Config, s: State, op: Op)
    requires WellFormed(cfg.schema, s)
    ensures Safe(cfg.(policy := ForceCreate), s, Apply(cfg, s, op))
    ensures LeavesKeys(cfg, op) ==> Safe(cfg.(policy := UpdateAll), s, Apply(cfg, s, op))
  {
    match op
    case CreateObject(t, v, policy, current) =>
      if t in cfg.schema {
        CreateSafe(cfg.(policy := policy), s, t, v, current);
      }
    case SetValue(id, name, v, policy) =>
      if id.t in cfg.schema {
        SetPropertyKeepsSafe(cfg.(policy := policy), s, id, name, v);
      }
    case SetValues(t, query, name, v) =>
      if t in cfg.schema {
        SetAllSafe(cfg, s, t, query, name, v);
        if cfg.migrating && LeavesKeys(cfg, op) {
          ScalarsStill(cfg, s, t, query, name, v);
          SetAllSafe(cfg.(migrating := false), s, t, query, name, v);
        }
      }
  }

  /** A batch set of a scalar that is no key does not depend on the migration flag. */
  lemma ScalarsStill(cfg: Config, s: State, t: TypeName, q: Query, name: string, v: Value)
    requires t in cfg.schema
    requires var c := PropertyForName(cfg.schema[t], name);
             c != cfg.schema[t].pk && (c.Some? ==> ScalarKind(cfg.schema[t].props[c.value].kind))
    ensures SetAll(cfg, s, t, q, name, v) == SetAll(cfg.(migrating := false), s, t, q, name, v)
  {
    var c := PropertyForName(cfg.schema[t], name);
    if c.Some? {
      EachStill(cfg.(policy := ForceCreate), s, t, Snapshot(s, t, q), c.value, v, 0);
    }
  }

  lemma {:induction false} EachStill(cfg: Config, s: State, t: TypeName, keys: seq<ObjKey>, c: nat, v: Value, i: nat)
    requires t in cfg.schema && c < |cfg.schema[t].props| && i <= |keys|
    requires ScalarKind(cfg.schema[t].props[c].kind)
    ensures SetEach(cfg, s, t, keys, c, v, i) == SetEach(cfg.(migrating := false), s, t, keys, c, v, i)
    decreases |keys| - i
  {
    if i < |keys| {
      var kind := cfg.schema[t].props[c].kind;
      var still := cfg.(migrating := false);
      var st := SetPropertyImpl(cfg, s, RowId(t, keys[i]), c, kind, v, false);
      assert Unbox(cfg, s, kind.elem, v, Get(s, RowId(t, keys[i]), c), false)
          == Unbox(still, s, kind.elem, v, Get(s, RowId(t, keys[i]), c), false);
      assert st == SetPropertyImpl(still, s, RowId(t, keys[i]), c, kind, v, false);
      EachStill(cfg, st.s, t, keys, c, v, i + 1);
    }
  }

  /** Every run, from any well-formed store, keeps the store well formed (so no link ever dangles) and keeps
      every row. If each operation leaves keys alone, every row keeps its key, and unique keys stay unique. Calls
      in the run may fail part-way.
   */
  lemma {:induction false} RunKeepsKeys(cfg: Config, s: State, ops: seq<Op>)
    requires WellFormed(cfg.schema, s)
    ensures var s' := Run(cfg, s, ops);
            && WellFormed(cfg.schema, s')
            && (forall id | id in s.rows :: id in s'.rows)
            && s.log <= s'.log
            && (s'.log == s.log ==> s' == s)
            && ((forall op | op in ops :: LeavesKeys(cfg, op)) ==>
                  && (forall id | id in s.rows :: NameOf(cfg.schema, s', id) == NameOf(cfg.schema, s, id))
                  && (Unique(cfg.schema, s) ==> Unique(cfg.schema, s')))
    decreases |ops|
  {
    if ops != [] {
      assert ops[0] in ops;
      ApplySafe(cfg, s, ops[0]);
      RunKeepsKeys(cfg, Apply(cfg, s, ops[0]), ops[1..]);
    }
  }

  /** What a run leaves is what its log makes of the store it started from. */
  lemma {:induction false} RunLogged(cfg: Config, s: State, ops: seq<Op>)
    ensures Logged(s, Run(cfg, s, ops))
    decreases |ops|
  {
    hide Logged, Create, SetProperty, SetAll;
    LoggedNone(s);
    if ops != [] {
      match ops[0] {
        case CreateObject(t, v, policy, current) =>
          if t in cfg.schema {
            CreateLogged(cfg.(policy := policy), s, t, v, current);
          }
        case SetValue(id, name, v, policy) =>
          if id.t in cfg.schema {
            SetLogged(cfg.(policy := policy), s, id, name, v);
          }
        case SetValues(t, query, name, v) =>
          if t in cfg.schema {
            BatchLogged(cfg, s, t, query, name, v);
          }
      }
      var s1 := Apply(cfg, s, ops[0]);
      RunLogged(cfg, s1, ops[1..]);
      LoggedTrans(s, s1, Run(cfg, s1, ops[1..]));
    }
  }
}
