/**
 * Query builders as mutable trees: slices with shared backing arrays, a query context behind a
 * pointer, and nested eager-load queries. Clone has to separate all of it.
 */
module QueryBuilder {
  import opened Common

  /** A Go slice: a backing array, whose length is the capacity, and a length. */
  datatype GoSlice<T> = GoSlice(arr: array<T>, len: nat)

  function Items<T>(s: GoSlice<T>): seq<T>
    requires s.len <= s.arr.Length
    reads s.arr
  {
    s.arr[..s.len]
  }

  /** append: in place while the capacity lasts, otherwise into a larger array. */
  method Append<T(0)>(s: GoSlice<T>, xs: seq<T>) returns (t: GoSlice<T>)
    requires s.len <= s.arr.Length
    modifies s.arr
    ensures t.len <= t.arr.Length && Items(t) == old(Items(s)) + xs
    ensures t.arr == s.arr || fresh(t.arr)
  {
    ghost var before := Items(s);
    var arr := s.arr;
    if s.len + |xs| > s.arr.Length {
      arr := new T[2 * (s.len + |xs|)];
      for k := 0 to s.len
        invariant arr[..k] == before[..k] && s.arr[..s.len] == before
      {
        arr[k] := s.arr[k];
      }
    }
    assert arr[..s.len] == before;
    for k := 0 to |xs|
      invariant arr[..s.len + k] == before + xs[..k]
    {
      arr[s.len + k] := xs[k];
    }
    assert xs[..|xs|] == xs;
    t := GoSlice(arr, s.len + |xs|);
  }

  /** append([]T{}, s...): a slice of its own. */
  method CopyOf<T(0)>(s: GoSlice<T>) returns (t: GoSlice<T>)
    requires s.len <= s.arr.Length
    ensures t.len <= t.arr.Length && Items(t) == Items(s) && fresh(t.arr)
  {
    var arr := new T[s.len];
    for k := 0 to s.len
      invariant arr[..k] == s.arr[..k]
    {
      arr[k] := s.arr[k];
    }
    t := GoSlice(arr, s.len);
  }

  class QueryContext {
    var limit: Option<int>
    var offset: Option<int>
    var unique: Option<bool>
    var fields: GoSlice<string>

    constructor (limit: Option<int>, offset: Option<int>, unique: Option<bool>, fields: GoSlice<string>)
      ensures this.limit == limit && this.offset == offset && this.unique == unique && this.fields == fields
    {
      this.limit, this.offset, this.unique, this.fields := limit, offset, unique, fields;
    }
  }

  /** What one builder holds besides its nested queries. */
  datatype Own = Own(limit: Option<int>, offset: Option<int>, unique: Option<bool>, fields: seq<string>,
                     order: seq<nat>, predicates: seq<nat>, modifiers: seq<nat>, inters: seq<nat>, path: nat)

  /** The two edges that a builder can load eagerly, such as role and sessions of users. */
  datatype Edge = First | Second

  /** The value of a builder: everything a caller can tell it by. */
  datatype Tree = Tree(own: Own, first: Option<Tree>, second: Option<Tree>)
  {
    function At(e: Edge): Option<Tree> {
      if e.First? then first else second
    }

    function Put(e: Edge, t: Option<Tree>): Tree {
      if e.First? then this.(first := t) else this.(second := t)
    }
  }

  function EmptyTree(inters: seq<nat>): Tree {
    Tree(Own(None, None, None, [], [], [], [], inters, 0), None, None)
  }

  /** Everything but the modifiers, at every level. */
  function Cloned(t: Tree): Tree {
    Tree(t.own.(modifiers := []),
         if t.first.Some? then Some(Cloned(t.first.value)) else None,
         if t.second.Some? then Some(Cloned(t.second.value)) else None)
  }

  /** The builder at the end of a path of edges, if there is one. */
  function Follow(t: Tree, path: seq<Edge>): Option<Tree> {
    if path == [] then Some(t)
    else if t.At(path[0]).None? then None
    else Follow(t.At(path[0]).value, path[1..])
  }

  /** The copy has a builder at the end of the path iff the original has, with its fields except for the modifiers. */
  ghost predicate CopiedAt(copy: Tree, t: Tree, path: seq<Edge>) {
    var (c, o) := (Follow(copy, path), Follow(t, path));
    && (c.Some? <==> o.Some?)
    && (o.Some? ==>
          && c.value.own.limit == o.value.own.limit && c.value.own.offset == o.value.own.offset
          && c.value.own.unique == o.value.own.unique && c.value.own.fields == o.value.own.fields
          && c.value.own.order == o.value.own.order && c.value.own.predicates == o.value.own.predicates
          && c.value.own.inters == o.value.own.inters && c.value.own.path == o.value.own.path
          && c.value.own.modifiers == [])
  }

  /** MAIN: Cloned copies the builder at the end of every path of edges, and every copy of that kind is it. */
  lemma {:induction false} ClonedAtEveryPath(t: Tree, path: seq<Edge>)
    ensures CopiedAt(Cloned(t), t, path)
    decreases |path|
  {
    if path != [] && t.At(path[0]).Some? {
      ClonedAtEveryPath(t.At(path[0]).value, path[1..]);
    }
  }

  lemma FollowOne(t: Tree, e: Edge)
    ensures Follow(t, [e]) == t.At(e)
  {
    assert [e][1..] == [];
  }

  lemma SameEdge(copy: Tree, t: Tree, e: Edge)
    requires CopiedAt(copy, t, [e])
    ensures copy.At(e).None? <==> t.At(e).None?
  {
    FollowOne(copy, e);
    FollowOne(t, e);
  }

  lemma {:induction false} CopyIsCloned(copy: Tree, t: Tree)
    requires forall path :: CopiedAt(copy, t, path)
    ensures copy == Cloned(t)
    decreases t
  {
    assert CopiedAt(copy, t, []);
    assert CopiedAt(copy, t, [First]) && CopiedAt(copy, t, [Second]);
    SameEdge(copy, t, First);
    SameEdge(copy, t, Second);
    if t.first.Some? {
      BelowCopied(copy, t, First);
      CopyIsCloned(copy.first.value, t.first.value);
    }
    if t.second.Some? {
      BelowCopied(copy, t, Second);
      CopyIsCloned(copy.second.value, t.second.value);
    }
  }

  lemma BelowCopied(copy: Tree, t: Tree, e: Edge)
    requires (forall path :: CopiedAt(copy, t, path)) && t.At(e).Some? && copy.At(e).Some?
    ensures forall path :: CopiedAt(copy.At(e).value, t.At(e).value, path)
  {
    forall path ensures CopiedAt(copy.At(e).value, t.At(e).value, path) {
      assert CopiedAt(copy, t, [e] + path);
      assert ([e] + path)[1..] == path;
    }
  }

  /** A builder call on the builder's own fields. */
  datatype FieldOp =
    | Where(ps: seq<nat>)
    | Order(os: seq<nat>)
    | Limit(n: int)
    | Offset(n: int)
    | Unique(b: bool)
    | Select(fs: seq<string>)
    | ForUpdate(postgres: bool, m: nat)

  /** Any builder call; Nested is one on the eager-load query of an edge, as the loaders make. */
  datatype Op =
    | Field(f: FieldOp)
    | With(e: Edge, inters: seq<nat>, opts: seq<Op>)
    | Nested(e: Edge, op: Op)

  function FieldStep(o: Own, f: FieldOp): Own {
    match f
    case Where(ps) => o.(predicates := o.predicates + ps)
    case Order(os) => o.(order := o.order + os)
    case Limit(n) => o.(limit := Some(n))
    case Offset(n) => o.(offset := Some(n))
    case Unique(b) => o.(unique := Some(b))
    case Select(fs) => o.(fields := o.fields + fs)
    case ForUpdate(postgres, m) => o.(unique := if postgres then Some(false) else o.unique, modifiers := o.modifiers + [m])
  }

  function Step(t: Tree, op: Op): Tree
    decreases op
  {
    match op
    case Field(f) => t.(own := FieldStep(t.own, f))
    case With(e, inters, opts) => t.Put(e, Some(Steps(EmptyTree(inters), opts)))
    case Nested(e, op1) => if t.At(e).Some? then t.Put(e, Some(Step(t.At(e).value, op1))) else t
  }

  function Steps(t: Tree, ops: seq<Op>): Tree
    decreases ops
  {
    if ops == [] then t else Step(Steps(t, ops[..|ops| - 1]), ops[|ops| - 1])
  }

  /** The field that a call is about has changed as the call says, and no other. */
  ghost predicate Changed(o: Own, v: Own, f: FieldOp) {
    && v.predicates == (if f.Where? then o.predicates + f.ps else o.predicates)
    && v.order == (if f.Order? then o.order + f.os else o.order)
    && v.limit == (if f.Limit? then Some(f.n) else o.limit)
    && v.offset == (if f.Offset? then Some(f.n) else o.offset)
    && v.unique == (if f.Unique? then Some(f.b) else if f.ForUpdate? && f.postgres then Some(false) else o.unique)
    && v.fields == (if f.Select? then o.fields + f.fs else o.fields)
    && v.modifiers == (if f.ForUpdate? then o.modifiers + [f.m] else o.modifiers)
    && v.inters == o.inters && v.path == o.path
  }

  /** Each call changes its own field; FieldStep is the only function that does what the calls say. */
  lemma FieldStepChanges(o: Own, v: Own, f: FieldOp)
    ensures Changed(o, v, f) <==> v == FieldStep(o, f)
  {
  }

  /**
   * What a call does to the tree: one on the own fields leaves both nested queries alone, and one
   * that concerns an edge leaves the own fields and the other edge alone. WithX starts from a query
   * with nothing set, and a call on a nested query that is not there does nothing.
   */
  lemma StepTouches(t: Tree, op: Op)
    ensures op.Field? ==> Changed(t.own, Step(t, op).own, op.f) && Step(t, op).first == t.first && Step(t, op).second == t.second
    ensures !op.Field? ==> Step(t, op).own == t.own && Step(t, op).At(Sibling(op.e)) == t.At(Sibling(op.e))
    ensures op.With? ==>
              Step(t, op).At(op.e) ==
              Some(Steps(Tree(Own(None, None, None, [], [], [], [], op.inters, 0), None, None), op.opts))
    ensures op.Nested? ==> Step(t, op).At(op.e) == if t.At(op.e).Some? then Some(Step(t.At(op.e).value, op.op)) else None
  {
  }

  /** Runs of calls compose, the earlier calls first. */
  lemma {:induction false} StepsCompose(t: Tree, a: seq<Op>, b: seq<Op>)
    ensures Steps(t, a + b) == Steps(Steps(t, a), b)
    ensures forall op :: Steps(t, [op]) == Step(t, op)
    decreases |b|
  {
    forall op ensures Steps(t, [op]) == Step(t, op) {
      assert [op][..0] == [];
    }
    if b == [] {
      assert a + b == a;
    } else {
      assert (a + b)[..|a + b| - 1] == a + b[..|b| - 1];
      StepsCompose(t, a, b[..|b| - 1]);
    }
  }

  function Sibling(e: Edge): Edge {
    match e
    case First => Second
    case Second => First
  }

  /** The fields of one builder other than its nested queries. */
  class Fields {
    var ctx: QueryContext
    var order: GoSlice<nat>
    var predicates: GoSlice<nat>
    var modifiers: GoSlice<nat>
    var inters: seq<nat>
    var path: nat
    ghost var Repr: set<object>

    ghost predicate Valid()
      reads this, Repr
      ensures Valid() ==> this in Repr
    {
      && this in Repr && ctx in Repr && ctx.fields.arr in Repr && order.arr in Repr && predicates.arr in Repr && modifiers.arr in Repr
      && ctx.fields.len <= ctx.fields.arr.Length
      && order.len <= order.arr.Length && predicates.len <= predicates.arr.Length && modifiers.len <= modifiers.arr.Length
      && order.arr != predicates.arr && order.arr != modifiers.arr && predicates.arr != modifiers.arr
    }

    ghost function Value(): Own
      requires Valid()
      reads Repr
    {
      Own(ctx.limit, ctx.offset, ctx.unique, Items(ctx.fields), Items(order), Items(predicates), Items(modifiers), inters, path)
    }

    constructor (inters: seq<nat>)
      ensures Valid() && fresh(Repr) && Value() == EmptyTree(inters).own
    {
      var fields := new string[0];
      var c := new QueryContext(None, None, None, GoSlice(fields, 0));
      var o, p, m := new nat[0], new nat[0], new nat[0];
      ctx := c;
      order, predicates, modifiers := GoSlice(o, 0), GoSlice(p, 0), GoSlice(m, 0);
      this.inters, path := inters, 0;
      Repr := {this, c, fields, o, p, m};
    }

    /** A context and slices of its own; the modifiers are left behind. */
    constructor CopyFrom(f: Fields)
      requires f.Valid()
      ensures Valid() && fresh(Repr) && Value() == f.Value().(modifiers := [])
    {
      var fields := CopyOf(f.ctx.fields);
      var c := new QueryContext(f.ctx.limit, f.ctx.offset, f.ctx.unique, fields);
      var o := CopyOf(f.order);
      var p := CopyOf(f.predicates);
      var m := new nat[0];
      ctx, order, predicates, modifiers := c, o, p, GoSlice(m, 0);
      inters, path := f.inters, f.path;
      Repr := {this, c, fields.arr, o.arr, p.arr, m};
    }

    method AppendPredicates(ps: seq<nat>)
      requires Valid()
      modifies Repr
      ensures Valid() && fresh(Repr - old(Repr)) && Value() == FieldStep(old(Value()), Where(ps))
    {
      predicates := Append(predicates, ps);
      Repr := Repr + {predicates.arr};
    }

    method AppendOrder(os: seq<nat>)
      requires Valid()
      modifies Repr
      ensures Valid() && fresh(Repr - old(Repr)) && Value() == FieldStep(old(Value()), Order(os))
    {
      order := Append(order, os);
      Repr := Repr + {order.arr};
    }

    method AppendFields(fs: seq<string>)
      requires Valid()
      modifies Repr
      ensures Valid() && fresh(Repr - old(Repr)) && Value() == FieldStep(old(Value()), Select(fs))
    {
      ctx.fields := Append(ctx.fields, fs);
      Repr := Repr + {ctx.fields.arr};
    }

    method Lock(postgres: bool, m: nat)
      requires Valid()
      modifies Repr
      ensures Valid() && fresh(Repr - old(Repr)) && Value() == FieldStep(old(Value()), ForUpdate(postgres, m))
    {
      if postgres {
        ctx.unique := Some(false);
      }
      modifiers := Append(modifiers, [m]);
      Repr := Repr + {modifiers.arr};
    }

    method Apply(f: FieldOp)
      requires Valid()
      modifies Repr
      ensures Valid() && fresh(Repr - old(Repr)) && Value() == FieldStep(old(Value()), f)
      ensures Changed(old(Value()), Value(), f)
    {
      match f {
        case Where(ps) => AppendPredicates(ps);
        case Order(os) => AppendOrder(os);
        case Limit(n) => ctx.limit := Some(n);
        case Offset(n) => ctx.offset := Some(n);
        case Unique(b) => ctx.unique := Some(b);
        case Select(fs) => AppendFields(fs);
        case ForUpdate(postgres, m) => Lock(postgres, m);
      }
    }
  }

  /** A query builder: its fields, and the eager-load queries of its two edges. */
  class Query {
    var fields: Fields
    var first: Query?
    var second: Query?
    ghost var value: Tree
    ghost var depth: nat
    ghost var Repr: set<object>

    ghost predicate Valid()
      reads this, Repr
      ensures Valid() ==> this in Repr
      decreases depth, 1
    {
      OwnPart() && Nests(first, value.first) && Nests(second, value.second) && Apart(first, second)
    }

    /** The builder's own objects, and the own part of its value. */
    ghost predicate OwnPart()
      reads this, Repr
      ensures OwnPart() ==> this in Repr
    {
      && this in Repr && fields in Repr && fields.Repr <= Repr && this !in fields.Repr && fields.Valid()
      && value.own == fields.Value()
    }

    /** A nested query, or none: valid, apart from the builder's own objects, with the value recorded for it. */
    ghost predicate Nests(q: Query?, v: Option<Tree>)
      requires OwnPart()
      reads this, Repr
      decreases depth, 0
    {
      if q == null then v.None?
      else
        && q in Repr && q.Repr <= Repr && this !in q.Repr && q.Repr !! fields.Repr
        && q.depth < depth && q.Valid() && v == Some(q.value)
    }

    static ghost predicate Apart(a: Query?, b: Query?)
      reads a, b
    {
      a != null && b != null ==> a.Repr !! b.Repr
    }

    static ghost function ValueOf(q: Query?): Option<Tree>
      reads q
    {
      if q == null then None else Some(q.value)
    }

    /** A depth above both nested queries. */
    static ghost function Above(a: Query?, b: Query?): nat
      reads a, b
    {
      1 + (if a == null then 0 else a.depth) + (if b == null then 0 else b.depth)
    }

    function At(e: Edge): Query?
      reads this
    {
      if e.First? then first else second
    }

    /** A client's Query(): nothing set, the client's interceptors. */
    constructor (inters: seq<nat>)
      ensures Valid() && fresh(Repr) && value == EmptyTree(inters)
    {
      var f := new Fields(inters);
      fields, first, second := f, null, null;
      value, depth, Repr := EmptyTree(inters), 0, {this} + f.Repr;
    }

    constructor Assemble(fields: Fields, first: Query?, second: Query?)
      requires fields.Valid() && Apart(first, second)
      requires first != null ==> first.Valid() && first.Repr !! fields.Repr
      requires second != null ==> second.Valid() && second.Repr !! fields.Repr
      ensures Valid()
      ensures forall o :: o in Repr ==>
                o == this || o in fields.Repr || (first != null && o in first.Repr) || (second != null && o in second.Repr)
      ensures value == Tree(fields.Value(), ValueOf(first), ValueOf(second))
    {
      this.fields, this.first, this.second := fields, first, second;
      value := Tree(fields.Value(), ValueOf(first), ValueOf(second));
      depth := Above(first, second);
      Repr := {this} + fields.Repr + (if first == null then {} else first.Repr) + (if second == null then {} else second.Repr);
    }

    /** MAIN: a clone is made of new objects at every level, with the same value, modifiers left behind. */
    method Clone() returns (c: Query)
      requires Valid()
      ensures c.Valid() && fresh(c.Repr)
      ensures c.value == Cloned(value)
      ensures forall path :: CopiedAt(c.value, value, path)
      ensures forall e :: c.At(e) == null <==> At(e) == null
      decreases depth, 2
    {
      hide *;
      var f, a, b := CloneParts();
      c := new Query.Assemble(f, a, b);
      forall path ensures CopiedAt(c.value, value, path) {
        ClonedAtEveryPath(value, path);
      }
      c.EdgesInValue();
      EdgesInValue();
      forall e ensures c.value.At(e).None? <==> value.At(e).None? {
        SameEdge(c.value, value, e);
      }
    }

    /** The value records which edges have a query. */
    lemma EdgesInValue()
      requires Valid()
      ensures forall e :: At(e) == null <==> value.At(e).None?
    {
    }

    /** New fields and nested queries that share nothing, and that together have the value of a clone. */
    method CloneParts() returns (f: Fields, a: Query?, b: Query?)
      requires Valid()
      ensures f.Valid() && fresh(f.Repr)
      ensures a != null ==> a.Valid() && fresh(a.Repr) && a.Repr !! f.Repr
      ensures b != null ==> b.Valid() && fresh(b.Repr) && b.Repr !! f.Repr
      ensures Apart(a, b)
      ensures Tree(f.Value(), ValueOf(a), ValueOf(b)) == Cloned(value)
      decreases depth, 1
    {
      f := new Fields.CopyFrom(fields);
      a := CloneNested(First);
      b := CloneNested(Second);
    }

    method CloneNested(e: Edge) returns (c: Query?)
      requires Valid()
      ensures c == null <==> At(e) == null
      ensures c != null ==> c.Valid() && fresh(c.Repr) && c.value == Cloned(At(e).value)
      decreases depth, 0
    {
      c := null;
      if At(e) != null {
        c := At(e).Clone();
      }
    }

    /** A call on the builder's own fields. */
    method ApplyField(f: FieldOp)
      requires Valid()
      modifies Repr
      ensures Valid() && fresh(Repr - old(Repr)) && value == Step(old(value), Field(f))
    {
      fields.Apply(f);
      Repr := Repr + fields.Repr;
      value := value.(own := fields.Value());
    }

    /** WithX: a new nested query, configured, takes the place of the old one of that edge. */
    method SetNested(e: Edge, q: Query)
      requires Valid() && q.Valid() && q.Repr !! Repr
      modifies this
      ensures Valid() && Repr == old(Repr) + q.Repr && value == old(value).Put(e, Some(q.value))
    {
      if e.First? {
        first := q;
      } else {
        second := q;
      }
      Record(e, q);
    }

    /** A call on the nested query of an edge, through the pointer to it; its sibling is not touched. */
    method ApplyNested(e: Edge, op: Op)
      requires Valid() && At(e) != null
      modifies Repr
      ensures Valid() && fresh(Repr - old(Repr)) && old(value).At(e).Some?
      ensures value == old(value).Put(e, Some(Step(old(value).At(e).value, op)))
      decreases op, 1
    {
      var q: Query := At(e);
      q.Apply(op);
      Record(e, q);
    }

    /** The query at an edge was set or has changed: its value and its objects are recorded. */
    ghost method Record(e: Edge, q: Query)
      requires OwnPart() && At(e) == q && q.Valid() && this !in q.Repr && q.Repr !! fields.Repr
      requires Nests(At(Sibling(e)), value.At(Sibling(e))) && (At(Sibling(e)) != null ==> At(Sibling(e)).Repr !! q.Repr)
      modifies this`value, this`depth, this`Repr
      ensures Valid() && Repr == old(Repr) + q.Repr && value == old(value).Put(e, Some(q.value))
    {
      value := value.Put(e, Some(q.value));
      depth := Above(first, second);
      Repr := Repr + q.Repr;
    }

    /** Any call. */
    method Apply(op: Op)
      requires Valid()
      modifies Repr
      ensures Valid() && fresh(Repr - old(Repr)) && value == Step(old(value), op)
      decreases op, 0
    {
      match op {
        case Field(f) => ApplyField(f);
        case With(e, inters, opts) =>
          var q := NewNested(inters, opts);
          SetNested(e, q);
        case Nested(e, op1) =>
          if At(e) != null {
            ApplyNested(e, op1);
          }
      }
    }

    static method NewNested(inters: seq<nat>, opts: seq<Op>) returns (q: Query)
      ensures q.Valid() && fresh(q.Repr) && q.value == Steps(EmptyTree(inters), opts)
      decreases opts, 1
    {
      q := new Query(inters);
      q.Run(opts);
    }

    /** A run of calls. */
    method Run(ops: seq<Op>)
      requires Valid()
      modifies Repr
      ensures Valid() && fresh(Repr - old(Repr)) && value == Steps(old(value), ops)
      decreases ops, 0
    {
      for k := 0 to |ops|
        invariant Valid() && fresh(Repr - old(Repr)) && value == Steps(old(value), ops[..k])
      {
        assert ops[..k + 1][..k] == ops[..k];
        Apply(ops[k]);
      }
      assert ops[..|ops|] == ops;
    }
  }

  /** The calls of an interleaved script that go to one side. */
  function CallsOn(script: seq<(bool, Op)>, side: bool): seq<Op> {
    if script == [] then []
    else
      CallsOn(script[..|script| - 1], side)
      + (if script[|script| - 1].0 == side then [script[|script| - 1].1] else [])
  }

  /** A call on one of two builders that share nothing. */
  method ApplyBeside(a: Query, b: Query, op: Op)
    requires a.Valid() && b.Valid() && a.Repr !! b.Repr
    modifies a.Repr
    ensures a.Valid() && fresh(a.Repr - old(a.Repr)) && a.value == Step(old(a.value), op)
    ensures b.Valid() && b.Repr == old(b.Repr) && b.value == old(b.value) && a.Repr !! b.Repr
  {
    a.Apply(op);
  }

  /**
   * MAIN: after Clone, any interleaving of builder calls on the original and on the clone, also on
   * their nested queries, leaves each as if the calls on the other had never been made.
   */
  method CloneThenDiverge(q: Query, script: seq<(bool, Op)>) returns (c: Query)
    requires q.Valid()
    modifies q.Repr
    ensures q.Valid() && c.Valid() && q.Repr !! c.Repr
    ensures q.value == Steps(old(q.value), CallsOn(script, true))
    ensures c.value == Steps(Cloned(old(q.value)), CallsOn(script, false))
    ensures forall path :: CopiedAt(Cloned(old(q.value)), old(q.value), path)
  {
    hide *;
    forall path ensures CopiedAt(Cloned(q.value), q.value, path) {
      ClonedAtEveryPath(q.value, path);
    }
    c := q.Clone();
    NoCallsYet(script, true, old(q.value));
    NoCallsYet(script, false, c.value);
    for k := 0 to |script|
      invariant q.Valid() && c.Valid() && q.Repr !! c.Repr
      invariant fresh(c.Repr) && fresh(q.Repr - old(q.Repr))
      invariant q.value == Steps(old(q.value), CallsOn(script[..k], true))
      invariant c.value == Steps(Cloned(old(q.value)), CallsOn(script[..k], false))
    {
      CallsOnNext(script, k, true, old(q.value));
      CallsOnNext(script, k, false, Cloned(old(q.value)));
      if script[k].0 {
        ApplyBeside(q, c, script[k].1);
      } else {
        ApplyBeside(c, q, script[k].1);
      }
    }
    assert script[..|script|] == script;
  }

  lemma NoCallsYet(script: seq<(bool, Op)>, side: bool, t: Tree)
    ensures Steps(t, CallsOn(script[..0], side)) == t
  {
  }

  lemma CallsOnNext(script: seq<(bool, Op)>, k: nat, side: bool, t: Tree)
    requires k < |script|
    ensures Steps(t, CallsOn(script[..k + 1], side)) ==
            var before := Steps(t, CallsOn(script[..k], side));
            if script[k].0 == side then Step(before, script[k].1) else before
  {
    assert script[..k + 1][..k] == script[..k];
    var ops := CallsOn(script[..k + 1], side);
    if script[k].0 == side {
      assert ops[..|ops| - 1] == CallsOn(script[..k], side);
    } else {
      assert ops == CallsOn(script[..k], side);
    }
  }
}
