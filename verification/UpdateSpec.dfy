/**
 * Update specifications and the abstract table store they are applied to. The store
 * stands for the SQL graph library: foreign-key columns of nullable references, with
 * every clear of an update applied before every add.
 */
module UpdateSpec {
  import opened Common
  import opened EdgeMutation

  /** A primary key as it is handed to the driver: text or integer. */
  datatype NodeID = Str(s: string) | Int(i: int)

  datatype Rel = O2M | M2O

  datatype FieldType = TypeString | TypeInt

  /** An edge of an update; an empty node list in a clear means every node. */
  datatype EdgeSpec = EdgeSpec(rel: Rel, inverse: bool, table: string, column: string, idType: FieldType, nodes: seq<NodeID>)

  datatype Spec = Spec(clear: seq<EdgeSpec>, add: seq<EdgeSpec>)

  type ForeignKey = map<NodeID, Option<NodeID>>

  /** Foreign-key columns, by table and column name. */
  type Store = map<(string, string), ForeignKey>

  function ClearColumn(col: ForeignKey, self: NodeID, rel: Rel, nodes: seq<NodeID>): ForeignKey {
    match rel
    case O2M =>
      map r | r in col :: if col[r] == Some(self) && (nodes == [] || r in nodes) then None else col[r]
    case M2O =>
      map r | r in col ::
        if r == self && col[r].Some? && (nodes == [] || col[r].value in nodes) then None else col[r]
  }

  function AddColumn(col: ForeignKey, self: NodeID, rel: Rel, nodes: seq<NodeID>): ForeignKey {
    match rel
    case O2M => map r | r in col :: if r in nodes then Some(self) else col[r]
    case M2O => map r | r in col :: if r == self && nodes != [] then Some(nodes[0]) else col[r]
  }

  function ApplyClears(st: Store, self: NodeID, edges: seq<EdgeSpec>): Store {
    if edges == [] then st
    else
      var e := edges[0];
      var k := (e.table, e.column);
      ApplyClears(if k in st then st[k := ClearColumn(st[k], self, e.rel, e.nodes)] else st, self, edges[1..])
  }

  function ApplyAdds(st: Store, self: NodeID, edges: seq<EdgeSpec>): Store {
    if edges == [] then st
    else
      var e := edges[0];
      var k := (e.table, e.column);
      ApplyAdds(if k in st then st[k := AddColumn(st[k], self, e.rel, e.nodes)] else st, self, edges[1..])
  }

  function Apply(st: Store, self: NodeID, spec: Spec): Store {
    ApplyAdds(ApplyClears(st, self, spec.clear), self, spec.add)
  }

  /** The rows of a column that refer to `self`. */
  function Children(st: Store, key: (string, string), self: NodeID): set<NodeID> {
    if key in st then set r | r in st[key] && st[key][r] == Some(self) else {}
  }

  function RowsOf(st: Store, key: (string, string)): set<NodeID> {
    if key in st then st[key].Keys else {}
  }

  /** The edge set after an update, counting only ids of rows that exist. */
  function EffectOnRows(c: EdgeChange<NodeID>, old_: set<NodeID>, rows: set<NodeID>): set<NodeID> {
    (if c.cleared then {} else old_ - c.removed.GetOr({})) + Pending(c) * rows
  }

  // ---- Translating one to-many edge ----

  predicate IsClearPart(part: seq<EdgeSpec>, edge: EdgeSpec, c: EdgeChange<NodeID>) {
    if c.cleared then part == [edge.(nodes := [])]
    else if c.removed.GetOr({}) == {} then part == []
    else |part| == 1 && part[0] == edge.(nodes := part[0].nodes) && ToSet(part[0].nodes) == c.removed.GetOr({})
  }

  predicate IsAddPart(part: seq<EdgeSpec>, edge: EdgeSpec, c: EdgeChange<NodeID>) {
    if Pending(c) == {} then part == []
    else |part| == 1 && part[0] == edge.(nodes := part[0].nodes) && ToSet(part[0].nodes) == Pending(c)
  }

  /**
   * The three blocks that sqlSave has for every to-many edge: one clear of everything, or
   * else one clear of the removed ids, and one add.
   */
  method EmitToMany(fields: EdgeFields<NodeID>, edge: EdgeSpec) returns (clear: seq<EdgeSpec>, add: seq<EdgeSpec>)
    ensures IsClearPart(clear, edge, fields.Change())
    ensures IsAddPart(add, edge, fields.Change())
  {
    clear, add := [], [];
    if fields.cleared {
      clear := clear + [edge.(nodes := [])];
    }
    var nodes := fields.RemovedIDs();
    if |nodes| > 0 && !fields.cleared {
      var e := edge.(nodes := []);
      for i := 0 to |nodes|
        invariant e == edge.(nodes := nodes[..i])
      {
        e := e.(nodes := e.nodes + [nodes[i]]);
      }
      clear := clear + [e];
    }
    nodes := fields.IDs();
    if |nodes| > 0 {
      var e := edge.(nodes := []);
      for i := 0 to |nodes|
        invariant e == edge.(nodes := nodes[..i])
      {
        e := e.(nodes := e.nodes + [nodes[i]]);
      }
      add := add + [e];
    }
  }

  // ---- Lemmas about applying ----

  lemma {:induction false} ApplyClearsAppend(st: Store, self: NodeID, a: seq<EdgeSpec>, b: seq<EdgeSpec>)
    ensures ApplyClears(st, self, a + b) == ApplyClears(ApplyClears(st, self, a), self, b)
  {
    if a == [] {
      assert a + b == b;
    } else {
      assert (a + b)[1..] == a[1..] + b;
      var k := (a[0].table, a[0].column);
      ApplyClearsAppend(if k in st then st[k := ClearColumn(st[k], self, a[0].rel, a[0].nodes)] else st, self, a[1..], b);
    }
  }

  lemma {:induction false} ApplyAddsAppend(st: Store, self: NodeID, a: seq<EdgeSpec>, b: seq<EdgeSpec>)
    ensures ApplyAdds(st, self, a + b) == ApplyAdds(ApplyAdds(st, self, a), self, b)
  {
    if a == [] {
      assert a + b == b;
    } else {
      assert (a + b)[1..] == a[1..] + b;
      var k := (a[0].table, a[0].column);
      ApplyAddsAppend(if k in st then st[k := AddColumn(st[k], self, a[0].rel, a[0].nodes)] else st, self, a[1..], b);
    }
  }

  /** Columns that no edge of the list names keep their contents. */
  lemma {:induction false} OtherColumnsKept(st: Store, self: NodeID, edges: seq<EdgeSpec>, key: (string, string))
    requires forall i :: 0 <= i < |edges| ==> (edges[i].table, edges[i].column) != key
    ensures key in st <==> key in ApplyClears(st, self, edges)
    ensures key in st <==> key in ApplyAdds(st, self, edges)
    ensures key in st ==> ApplyClears(st, self, edges)[key] == st[key] == ApplyAdds(st, self, edges)[key]
  {
    if edges != [] {
      var k := (edges[0].table, edges[0].column);
      OtherColumnsKept(if k in st then st[k := ClearColumn(st[k], self, edges[0].rel, edges[0].nodes)] else st, self, edges[1..], key);
      OtherColumnsKept(if k in st then st[k := AddColumn(st[k], self, edges[0].rel, edges[0].nodes)] else st, self, edges[1..], key);
    }
  }

  ghost predicate Avoids(edges: seq<EdgeSpec>, key: (string, string)) {
    forall i :: 0 <= i < |edges| ==> (edges[i].table, edges[i].column) != key
  }

  /** A whole update leaves a column alone that none of its edges names. */
  lemma Untouching(st: Store, self: NodeID, spec: Spec, key: (string, string))
    requires Avoids(spec.clear, key) && Avoids(spec.add, key)
    ensures key in st <==> key in Apply(st, self, spec)
    ensures key in st ==> Apply(st, self, spec)[key] == st[key]
  {
    OtherColumnsKept(st, self, spec.clear, key);
    OtherColumnsKept(ApplyClears(st, self, spec.clear), self, spec.add, key);
  }

  /** What an update does to one column when only the middle parts of its lists name that column. */
  lemma ColumnAfter(st: Store, self: NodeID, key: (string, string),
                    c0: seq<EdgeSpec>, c: seq<EdgeSpec>, c1: seq<EdgeSpec>,
                    a0: seq<EdgeSpec>, a: seq<EdgeSpec>, a1: seq<EdgeSpec>)
    requires key in st && Avoids(c0, key) && Avoids(c1, key) && Avoids(a0, key) && Avoids(a1, key)
    requires |c| <= 1 && |a| <= 1
    requires c != [] ==> (c[0].table, c[0].column) == key
    requires a != [] ==> (a[0].table, a[0].column) == key
    ensures var after := Apply(st, self, Spec(c0 + c + c1, a0 + a + a1));
            && key in after
            && var cleared := if c == [] then st[key] else ClearColumn(st[key], self, c[0].rel, c[0].nodes);
            after[key] == if a == [] then cleared else AddColumn(cleared, self, a[0].rel, a[0].nodes)
  {
    var s1 := ApplyClears(st, self, c0);
    var s2 := ApplyClears(s1, self, c);
    var s3 := ApplyClears(s2, self, c1);
    ApplyClearsAppend(st, self, c0 + c, c1);
    ApplyClearsAppend(st, self, c0, c);
    OtherColumnsKept(st, self, c0, key);
    assert c != [] ==> s2 == s1[key := ClearColumn(s1[key], self, c[0].rel, c[0].nodes)];
    OtherColumnsKept(s2, self, c1, key);
    var s4 := ApplyAdds(s3, self, a0);
    var s5 := ApplyAdds(s4, self, a);
    ApplyAddsAppend(s3, self, a0 + a, a1);
    ApplyAddsAppend(s3, self, a0, a);
    OtherColumnsKept(s3, self, a0, key);
    assert a != [] ==> s5 == s4[key := AddColumn(s4[key], self, a[0].rel, a[0].nodes)];
    OtherColumnsKept(s5, self, a1, key);
  }

  /**
   * The children of `self` after a to-many clear part and add part, and those of every
   * other owner: only rows named in an add change hands.
   */
  lemma ToManyColumn(col: ForeignKey, self: NodeID, c: seq<EdgeSpec>, a: seq<EdgeSpec>, edge: EdgeSpec,
                     change: EdgeChange<NodeID>, after: ForeignKey)
    requires edge.rel == O2M && IsClearPart(c, edge, change) && IsAddPart(a, edge, change)
    requires var cleared := if c == [] then col else ClearColumn(col, self, c[0].rel, c[0].nodes);
             after == if a == [] then cleared else AddColumn(cleared, self, a[0].rel, a[0].nodes)
    ensures after.Keys == col.Keys
    ensures (set r | r in after && after[r] == Some(self)) ==
            EffectOnRows(change, (set r | r in col && col[r] == Some(self)), col.Keys)
    ensures forall r, other :: r in col && other != self ==>
              (after[r] == Some(other) <==> col[r] == Some(other) && r !in Pending(change))
  {
    var cleared := if c == [] then col else ClearColumn(col, self, c[0].rel, c[0].nodes);
    assert cleared.Keys == col.Keys;
    assert after.Keys == col.Keys;
    forall r | r in col
      ensures cleared[r] == if col[r] == Some(self) && (change.cleared || r in change.removed.GetOr({})) then None else col[r]
    {
      if !change.cleared && c != [] {
        assert r in c[0].nodes <==> r in ToSet(c[0].nodes);
      }
    }
    forall r | r in col
      ensures after[r] == if r in Pending(change) then Some(self) else cleared[r]
    {
      if a != [] {
        assert r in a[0].nodes <==> r in ToSet(a[0].nodes);
      }
    }
  }

  function Key(e: EdgeSpec): (string, string) {
    (e.table, e.column)
  }

  lemma {:induction false} NoColumn(st: Store, self: NodeID, spec: Spec, key: (string, string))
    requires key !in st
    ensures key !in Apply(st, self, spec)
    decreases |spec.clear| + |spec.add|
  {
    if spec.clear != [] {
      var e := spec.clear[0];
      var k := (e.table, e.column);
      NoColumn(if k in st then st[k := ClearColumn(st[k], self, e.rel, e.nodes)] else st, self, Spec(spec.clear[1..], spec.add), key);
    } else if spec.add != [] {
      var e := spec.add[0];
      var k := (e.table, e.column);
      NoColumn(if k in st then st[k := AddColumn(st[k], self, e.rel, e.nodes)] else st, self, Spec([], spec.add[1..]), key);
    }
  }

  /** One edge's share of an update: its own children, and everybody else's. */
  lemma OneEdge(st: Store, self: NodeID, edge: EdgeSpec, c0: seq<EdgeSpec>, c: seq<EdgeSpec>, c1: seq<EdgeSpec>,
                a0: seq<EdgeSpec>, a: seq<EdgeSpec>, a1: seq<EdgeSpec>, change: EdgeChange<NodeID>)
    requires edge.rel == O2M && IsClearPart(c, edge, change) && IsAddPart(a, edge, change)
    requires Avoids(c0, Key(edge)) && Avoids(c1, Key(edge)) && Avoids(a0, Key(edge)) && Avoids(a1, Key(edge))
    ensures var after := Apply(st, self, Spec(c0 + c + c1, a0 + a + a1));
            && Children(after, Key(edge), self) == EffectOnRows(change, Children(st, Key(edge), self), RowsOf(st, Key(edge)))
            && forall other :: other != self ==> Children(after, Key(edge), other) == Children(st, Key(edge), other) - Pending(change)
  {
    var key := Key(edge);
    var spec := Spec(c0 + c + c1, a0 + a + a1);
    if key in st {
      ColumnAfter(st, self, key, c0, c, c1, a0, a, a1);
      ToManyColumn(st[key], self, c, a, edge, change, Apply(st, self, spec)[key]);
    } else {
      NoColumn(st, self, spec, key);
    }
  }
}

/** Updating key roots: the two to-many edges of KeyRootMutation. */
module KeyRootUpdate {
  import opened Common
  import opened EdgeMutation
  import OldValue
  import opened UpdateSpec

  const WALLETS := EdgeSpec(O2M, false, "wallets", "key_root_id", TypeString, [])
  const WALLETS_KEY := ("wallets", "key_root_id")
  const COUNTERS_KEY := ("wallet_counters", "key_root_id")
  const WALLET_COUNTERS := EdgeSpec(O2M, false, "wallet_counters", "key_root_id", TypeInt, [])

  /** Every promise the emitted specification keeps, for every store and every updated key root. */
  ghost predicate Realises(spec: Spec, wallets: EdgeChange<NodeID>, counters: EdgeChange<NodeID>) {
    forall st: Store, self: NodeID :: RealisesOn(spec, wallets, counters, st, self)
  }

  ghost predicate RealisesOn(spec: Spec, wallets: EdgeChange<NodeID>, counters: EdgeChange<NodeID>, st: Store, self: NodeID) {
    var after := Apply(st, self, spec);
    && Children(after, WALLETS_KEY, self) ==
       EffectOnRows(wallets, Children(st, WALLETS_KEY, self), RowsOf(st, WALLETS_KEY))
    && Children(after, COUNTERS_KEY, self) ==
       EffectOnRows(counters, Children(st, COUNTERS_KEY, self), RowsOf(st, COUNTERS_KEY))
    && (forall other :: other != self ==>
          && Children(after, WALLETS_KEY, other) == Children(st, WALLETS_KEY, other) - Pending(wallets)
          && Children(after, COUNTERS_KEY, other) == Children(st, COUNTERS_KEY, other) - Pending(counters))
    && (forall k :: k in st && k != WALLETS_KEY && k != COUNTERS_KEY ==> k in after && after[k] == st[k])
  }

  /** KeyRootUpdate.sqlSave; `update` is the database's answer to a specification. */
  method SqlSave(m: OldValue.KeyRootMutation, update: Spec -> Result<nat, SqlError>) returns (spec: Spec, r: Result<nat, EntError>)
    modifies m`done
    ensures Realises(spec, m.wallets.Change(), m.walletCounters.Change())
    ensures m.done == (old(m.done) || update(spec).Ok?)
    ensures old(m.Valid()) ==>
              m.Valid() && m.View() == if update(spec).Ok? then OldValue.Step(old(m.View()), OldValue.Complete) else old(m.View())
    ensures r == match update(spec)
                 case Ok(n) => Ok(n)
                 case Err(e) => Err(Reported(e, "key_root"))
    ensures update(spec) == Err(NotFound) ==> r == Err(NotFoundError("key_root"))
    ensures forall msg :: update(spec) == Err(Constraint(msg)) ==> r == Err(ConstraintError(msg))
    ensures forall msg :: update(spec) == Err(Other(msg)) ==> r == Err(Plain(msg))
  {
    spec := Spec([], []);
    var clear, add := EmitToMany(m.wallets, WALLETS);
    spec := Spec(spec.clear + clear, spec.add + add);
    var clear', add' := EmitToMany(m.walletCounters, WALLET_COUNTERS);
    spec := Spec(spec.clear + clear', spec.add + add');
    forall st: Store, self: NodeID
      ensures RealisesOn(spec, m.wallets.Change(), m.walletCounters.Change(), st, self)
    {
      Correct(st, self, clear, clear', add, add', m.wallets.Change(), m.walletCounters.Change());
      assert [] + clear == clear && [] + add == add;
    }
    match update(spec) {
      case Ok(n) =>
        m.done := true;
        r := Ok(n);
      case Err(e) => r := Err(Reported(e, "key_root"));
    }
  }

  lemma Correct(st: Store, self: NodeID, cw: seq<EdgeSpec>, cc: seq<EdgeSpec>, aw: seq<EdgeSpec>, ac: seq<EdgeSpec>,
                wallets: EdgeChange<NodeID>, counters: EdgeChange<NodeID>)
    requires IsClearPart(cw, WALLETS, wallets) && IsAddPart(aw, WALLETS, wallets)
    requires IsClearPart(cc, WALLET_COUNTERS, counters) && IsAddPart(ac, WALLET_COUNTERS, counters)
    ensures RealisesOn(Spec(cw + cc, aw + ac), wallets, counters, st, self)
  {
    var kw, kc := Key(WALLETS), Key(WALLET_COUNTERS);
    forall k | k !in {kw, kc}
      ensures k in st ==> k in Apply(st, self, Spec(cw + cc, aw + ac)) && Apply(st, self, Spec(cw + cc, aw + ac))[k] == st[k]
    {
      Untouching(st, self, Spec(cw + cc, aw + ac), k);
    }
    assert [] + cw + cc == cw + cc == cw + cc + [] && [] + aw + ac == aw + ac == aw + ac + [];
    OneEdge(st, self, WALLETS, [], cw, cc, [], aw, ac, wallets);
    OneEdge(st, self, WALLET_COUNTERS, cw, cc, [], aw, ac, [], counters);
  }

  /**
   * From calls to rows: after any run of calls on the wallets edge of a fresh mutation, the saved
   * update leaves the key root with the edge set of the calls read with Clears first, provided the
   * ids still pending are rows of the wallets table; and with the edge set of the calls read in
   * order exactly when its Clears are superseded.
   */
  lemma SavedRunOfCalls(ops: seq<EdgeOp<NodeID>>, counters: EdgeChange<NodeID>, spec: Spec, st: Store, self: NodeID)
    requires Realises(spec, Run(Untouched(), ops), counters)
    requires Pending(Run(Untouched(), ops)) <= RowsOf(st, Key(WALLETS))
    ensures var stored := Children(st, Key(WALLETS), self);
            var saved := Children(Apply(st, self, spec), Key(WALLETS), self);
            && saved == Sequential(Hoisted(ops), stored)
            && (saved == Sequential(ops, stored) <==> ClearsAreSuperseded(ops))
  {
    var stored := Children(st, Key(WALLETS), self);
    assert RealisesOn(spec, Run(Untouched(), ops), counters, st, self);
    EffectIsHoistedFold(ops, stored);
    SequentialIffClearsSuperseded(ops, stored);
    assert Pending(Run(Untouched(), ops)) * RowsOf(st, Key(WALLETS)) == Pending(Run(Untouched(), ops));
  }
}
