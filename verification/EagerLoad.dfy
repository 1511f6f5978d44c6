/**
 * Eager loading of edges: the one-to-many and many-to-one hash joins that the query
 * builders run after the main query, over nodes that are shared and updated in place.
 */
module EagerLoad {
  import opened Common

  /** A stored row: primary key, foreign key (None is NULL) and everything else. */
  datatype Row = Row(id: string, fk: Option<string>, data: string)

  datatype Predicate = IDIn(ids: seq<string>) | FKIn(ids: seq<string>) | Custom(p: Row -> bool)
  {
    predicate Holds(r: Row) {
      match this
      case IDIn(ids) => r.id in ids
      case FKIn(ids) => r.fk.Some? && r.fk.value in ids
      case Custom(p) => p(r)
    }
  }

  datatype LoadError = QueryFailed(msg: string) | NilForeignKey(node: string) | UnexpectedKey(key: string)

  const FIELD_ID := "id"
  const FIELD_FK := "fk"
  const FIELD_DATA := "data"

  /**
   * A loaded node. `one` and `many` are its Edges, `loadedOne` and `loadedMany` their
   * loadedTypes: which of them the query was asked to load.
   */
  class Node {
    const row: Row
    const loadedOne: bool
    const loadedMany: bool
    var one: Node?
    var many: seq<Node>

    constructor (row: Row, loadedOne: bool, loadedMany: bool)
      ensures this.row == row && this.loadedOne == loadedOne && this.loadedMany == loadedMany && one == null && many == []
    {
      this.row, this.loadedOne, this.loadedMany := row, loadedOne, loadedMany;
      one, many := null, [];
    }

    /** RoleOrErr: an edge that was asked for but has no row is not found; otherwise it is not loaded. */
    function OneOrErr(edge: string): Result<Node, EntError>
      reads this`one
    {
      if one != null then Ok(one)
      else if loadedOne then Err(NotFoundError(edge))
      else Err(NotLoadedError(edge))
    }

    /** SessionsOrErr. */
    function ManyOrErr(edge: string): Result<seq<Node>, EntError>
      reads this`many
    {
      if loadedMany then Ok(many) else Err(NotLoadedError(edge))
    }
  }

  /**
   * The query builder of the neighbours. `run` answers a projection and a list of predicates;
   * it stands for the database together with every interceptor, so it may answer anything.
   */
  class Query {
    var fields: seq<string>
    var predicates: seq<Predicate>
    const run: (seq<string>, seq<Predicate>) -> Result<seq<Row>, string>

    function Answer(): Result<seq<Row>, string>
      reads this
    {
      run(fields, predicates)
    }

    method Where(p: Predicate)
      modifies this
      ensures predicates == old(predicates) + [p] && fields == old(fields)
    {
      predicates := predicates + [p];
    }

    method AppendFieldOnce(f: string)
      modifies this
      ensures fields == AppendOnce(old(fields), f) && predicates == old(predicates)
      ensures old(fields) <= fields && forall g :: g in fields <==> g in old(fields) || g == f
    {
      for i := 0 to |fields|
        invariant f !in fields[..i]
        invariant fields == old(fields) && predicates == old(predicates)
      {
        if fields[i] == f {
          return;
        }
      }
      fields := fields + [f];
    }

    method All() returns (r: Result<seq<Node>, string>)
      ensures r.Ok? <==> Answer().Ok?
      ensures r.Err? ==> r.error == Answer().error
      ensures r.Ok? ==> fresh(r.value) && RowsOf(r.value) == Answer().value
    {
      match Answer() {
        case Err(e) => r := Err(e);
        case Ok(rows) =>
          var nodes: seq<Node> := [];
          for i := 0 to |rows|
            invariant fresh(nodes) && |nodes| == i && forall k :: 0 <= k < i ==> nodes[k].row == rows[k]
          {
            var n := new Node(rows[i], false, false);
            nodes := nodes + [n];
          }
          r := Ok(nodes);
      }
    }
  }

  /** What is there stays, in order; the field is added at the end iff it was not there. */
  function AppendOnce(fields: seq<string>, f: string): (r: seq<string>)
    ensures fields <= r && |r| == |fields| + (if f in fields then 0 else 1)
    ensures forall g :: g in r <==> g in fields || g == f
  {
    if f in fields then fields else fields + [f]
  }

  function RowsOf(nodes: seq<Node>): (rows: seq<Row>)
    ensures |rows| == |nodes| && forall k :: 0 <= k < |nodes| ==> rows[k] == nodes[k].row
  {
    seq(|nodes|, k requires 0 <= k < |nodes| => nodes[k].row)
  }

  function Ids(rows: seq<Row>): (ids: seq<string>)
    ensures |ids| == |rows| && forall k :: 0 <= k < |rows| ==> ids[k] == rows[k].id
  {
    seq(|rows|, k requires 0 <= k < |rows| => rows[k].id)
  }

  /** The nested-loop join: the rows whose foreign key is the given id, in order. */
  function ChildRows(rows: seq<Row>, id: string): seq<Row> {
    if rows == [] then []
    else ChildRows(rows[..|rows| - 1], id) + (if rows[|rows| - 1].fk == Some(id) then [rows[|rows| - 1]] else [])
  }

  /** A row is a child by its own key alone. */
  lemma OneChildRow(r: Row, id: string)
    ensures ChildRows([r], id) == if r.fk == Some(id) then [r] else []
  {
    assert [r][..0] == [];
  }

  /** The children come in the order of the rows. */
  lemma {:induction false} ChildRowsCompose(a: seq<Row>, b: seq<Row>, id: string)
    ensures ChildRows(a + b, id) == ChildRows(a, id) + ChildRows(b, id)
  {
    if b == [] {
      assert a + b == a;
    } else {
      var n := |b| - 1;
      var last := if b[n].fk == Some(id) then [b[n]] else [];
      assert (a + b)[..|a + b| - 1] == a + b[..n] && (a + b)[|a + b| - 1] == b[n];
      ChildRowsCompose(a, b[..n], id);
      assert ChildRows(a, id) + (ChildRows(b[..n], id) + last) == ChildRows(a, id) + ChildRows(b[..n], id) + last;
    }
  }

  /** The position of the first row whose foreign key is not an id of the list. */
  function FirstStray(rows: seq<Row>, ids: seq<string>): (n: nat)
    ensures n <= |rows|
    ensures n < |rows| ==> rows[n].fk.None? || rows[n].fk.value !in ids
    ensures forall k :: 0 <= k < n ==> rows[k].fk.Some? && rows[k].fk.value in ids
  {
    if rows == [] then 0
    else
      var n := FirstStray(rows[..|rows| - 1], ids);
      if n < |rows| - 1 then n
      else if rows[n].fk.None? || rows[n].fk.value !in ids then n
      else n + 1
  }

  /** The position of the last occurrence of an id. */
  function LastPos(ids: seq<string>, id: string): (k: nat)
    requires id in ids
    ensures k < |ids| && ids[k] == id && forall j :: k < j < |ids| ==> ids[j] != id
  {
    if ids[|ids| - 1] == id then |ids| - 1 else LastPos(ids[..|ids| - 1], id)
  }

  /** Position i holds the last occurrence of its id. */
  predicate IsLast(ids: seq<string>, i: nat)
    requires i < |ids|
  {
    i == LastPos(ids, ids[i])
  }

  /** The children of the node at position i once the first n neighbours were handed out. */
  function Handed(ids: seq<string>, i: nat, rows: seq<Row>): seq<Row>
    requires i < |ids|
  {
    if IsLast(ids, i) then ChildRows(rows, ids[i]) else []
  }

  ghost predicate Distinct(nodes: seq<Node>) {
    forall i, j :: 0 <= i < j < |nodes| ==> nodes[i] != nodes[j]
  }

  /** `nodeids` maps each id of the list to the last node bearing it. */
  ghost predicate Indexes(nodeids: map<string, Node>, nodes: seq<Node>, ids: seq<string>)
    requires |ids| <= |nodes|
  {
    && nodeids.Keys == ToSet(ids)
    && forall id :: id in nodeids ==> nodeids[id] == nodes[LastPos(ids, id)]
  }

  /** First pass of one-to-many loading: the key list, the index, and empty child lists. */
  method IndexNodes(nodes: seq<Node>) returns (fks: seq<string>, nodeids: map<string, Node>)
    modifies nodes`many
    ensures fks == Ids(RowsOf(nodes))
    ensures Indexes(nodeids, nodes, fks)
    ensures forall k :: 0 <= k < |nodes| ==> nodes[k].many == []
  {
    fks := [];
    nodeids := map[];
    for i := 0 to |nodes|
      invariant fks == Ids(RowsOf(nodes))[..i]
      invariant Indexes(nodeids, nodes, fks)
      invariant forall k :: 0 <= k < i ==> nodes[k].many == []
    {
      IndexOneMore(nodeids, nodes, fks);
      fks := fks + [nodes[i].row.id];
      nodeids := nodeids[nodes[i].row.id := nodes[i]];
      nodes[i].many := [];
    }
  }

  lemma IndexOneMore(nodeids: map<string, Node>, nodes: seq<Node>, ids: seq<string>)
    requires |ids| < |nodes| && Indexes(nodeids, nodes, ids)
    ensures var n := nodes[|ids|]; Indexes(nodeids[n.row.id := n], nodes, ids + [n.row.id])
  {
    var new_ := nodes[|ids|].row.id;
    ToSetAppend(ids, [new_]);
    assert (ids + [new_])[..|ids|] == ids;
  }

  /** Every node holds the children that `rows` give it. */
  ghost predicate AllHanded(nodes: seq<Node>, ids: seq<string>, rows: seq<Row>)
    requires |ids| == |nodes|
    reads nodes
  {
    forall i :: 0 <= i < |nodes| ==> RowsOf(nodes[i].many) == Handed(ids, i, rows)
  }

  /** Last pass: each neighbour is appended to the node that the index gives for its key. */
  method Distribute(nodes: seq<Node>, ids: seq<string>, nodeids: map<string, Node>, neighbors: seq<Node>)
    returns (err: Option<LoadError>)
    requires Distinct(nodes) && ids == Ids(RowsOf(nodes)) && Indexes(nodeids, nodes, ids)
    requires forall k :: 0 <= k < |nodes| ==> nodes[k].many == []
    modifies nodes`many
    ensures var rows := RowsOf(neighbors);
            var n := FirstStray(rows, ids);
            && err == (if n == |rows| then None
                       else if rows[n].fk.None? then Some(NilForeignKey(rows[n].id))
                       else Some(UnexpectedKey(rows[n].fk.value)))
            && forall i :: 0 <= i < |nodes| ==> RowsOf(nodes[i].many) == Handed(ids, i, rows[..n])
  {
    ghost var rows := RowsOf(neighbors);
    assert rows[..0] == [];
    for j := 0 to |neighbors|
      invariant AllHanded(nodes, ids, rows[..j])
      invariant FirstStray(rows[..j], ids) == j
    {
      var n := neighbors[j];
      StrayOneMore(rows, ids, j);
      if n.row.fk.None? {
        return Some(NilForeignKey(n.row.id));
      }
      if n.row.fk.value !in nodeids {
        return Some(UnexpectedKey(n.row.fk.value));
      }
      HandOut(nodes, ids, rows[..j], n, nodeids[n.row.fk.value]);
    }
    assert rows[..|neighbors|] == rows;
    return None;
  }

  /** One neighbour: the last node with its key gets it, and nobody else anything. */
  method HandOut(nodes: seq<Node>, ghost ids: seq<string>, ghost rows: seq<Row>, n: Node, node: Node)
    requires Distinct(nodes) && |ids| == |nodes|
    requires n.row.fk.Some? && n.row.fk.value in ids && node == nodes[LastPos(ids, n.row.fk.value)]
    requires AllHanded(nodes, ids, rows)
    modifies nodes`many
    ensures AllHanded(nodes, ids, rows + [n.row])
  {
    ghost var k := LastPos(ids, n.row.fk.value);
    node.many := node.many + [n];
    forall i | 0 <= i < |nodes|
      ensures RowsOf(nodes[i].many) == Handed(ids, i, rows + [n.row])
    {
      HandOneMore(ids, rows, n.row, i);
      if i != k {
        assert nodes[i] != nodes[k];
        assert nodes[i].many == old(nodes[i].many);
      } else {
        assert RowsOf(nodes[i].many) == old(RowsOf(nodes[i].many)) + [n.row];
      }
    }
  }

  /** The first stray row is the first one that the loop meets. */
  lemma StrayOneMore(rows: seq<Row>, ids: seq<string>, j: nat)
    requires j < |rows| && FirstStray(rows[..j], ids) == j
    ensures rows[..j + 1] == rows[..j] + [rows[j]]
    ensures if rows[j].fk.None? || rows[j].fk.value !in ToSet(ids) then FirstStray(rows, ids) == j
            else FirstStray(rows[..j + 1], ids) == j + 1
  {
    assert rows[..j + 1][..j] == rows[..j];
    assert forall k :: 0 <= k < j ==> rows[..j][k] == rows[k];
  }

  /**
   * One-to-many loading (loadSessions, loadWallets, loadUsers). The nodes are the distinct
   * objects that the main query allocated, but their ids may repeat.
   */
  method LoadMany(nodes: seq<Node>, query: Query) returns (err: Option<LoadError>)
    requires Distinct(nodes)
    modifies nodes`many, query
    ensures query.fields == if old(query.fields) == [] then [] else AppendOnce(old(query.fields), FIELD_FK)
    ensures query.predicates == old(query.predicates) + [FKIn(Ids(RowsOf(nodes)))]
    ensures query.Answer().Err? ==> err == Some(QueryFailed(query.Answer().error))
                                    && forall i :: 0 <= i < |nodes| ==> nodes[i].many == []
    ensures query.Answer().Ok? ==>
              var ids, rows := Ids(RowsOf(nodes)), query.Answer().value;
              var n := FirstStray(rows, ids);
              && err == (if n == |rows| then None
                         else if rows[n].fk.None? then Some(NilForeignKey(rows[n].id))
                         else Some(UnexpectedKey(rows[n].fk.value)))
              && forall i :: 0 <= i < |nodes| ==> RowsOf(nodes[i].many) == Handed(ids, i, rows[..n])
  {
    var fks, nodeids := IndexNodes(nodes);
    if |query.fields| > 0 {
      query.AppendFieldOnce(FIELD_FK);
    }
    query.Where(FKIn(fks));
    var answer := query.All();
    if answer.Err? {
      return Some(QueryFailed(answer.error));
    }
    err := Distribute(nodes, fks, nodeids, answer.value);
  }

  /** One more row extends the list of exactly the last node with its key. */
  lemma HandOneMore(ids: seq<string>, rows: seq<Row>, r: Row, i: nat)
    requires i < |ids| && r.fk.Some? && r.fk.value in ids
    ensures Handed(ids, i, rows + [r]) == Handed(ids, i, rows) + (if i == LastPos(ids, r.fk.value) then [r] else [])
  {
    assert (rows + [r])[..|rows|] == rows;
  }

  // ---- Many to one ----

  /** The foreign keys of the nodes, in order, NULLs left out, repeats kept. */
  function Keys(rows: seq<Row>): seq<string> {
    if rows == [] then []
    else Keys(rows[..|rows| - 1]) + (if rows[|rows| - 1].fk.Some? then [rows[|rows| - 1].fk.value] else [])
  }

  /** The distinct elements of a list, each at the place of its first occurrence. */
  function FirstSeen(s: seq<string>): seq<string> {
    if s == [] then []
    else
      var before := FirstSeen(s[..|s| - 1]);
      if s[|s| - 1] in before then before else before + [s[|s| - 1]]
  }

  /** The last row bearing an id, if any. */
  function LastWithId(rows: seq<Row>, id: string): (r: Option<Row>)
    ensures r.Some? <==> exists k :: 0 <= k < |rows| && rows[k].id == id
    ensures r.Some? ==> r.value in rows && r.value.id == id
  {
    if rows == [] then None
    else if rows[|rows| - 1].id == id then Some(rows[|rows| - 1])
    else LastWithId(rows[..|rows| - 1], id)
  }

  /** It is the last one: no later row bears the id. */
  lemma {:induction false} LastWithIdIsLast(rows: seq<Row>, id: string) returns (k: nat)
    requires LastWithId(rows, id).Some?
    ensures k < |rows| && LastWithId(rows, id) == Some(rows[k]) && rows[k].id == id
    ensures forall l :: k < l < |rows| ==> rows[l].id != id
  {
    var n := |rows| - 1;
    k := n;
    if rows[n].id != id {
      k := LastWithIdIsLast(rows[..n], id);
      assert forall l :: k < l < n ==> rows[..n][l] == rows[l];
    }
  }

  /** The position of the first row whose id is not on the list. */
  function FirstForeign(rows: seq<Row>, ids: seq<string>): (n: nat)
    ensures n <= |rows|
    ensures n < |rows| ==> rows[n].id !in ids
    ensures forall k :: 0 <= k < n ==> rows[k].id in ids
  {
    if rows == [] then 0
    else
      var n := FirstForeign(rows[..|rows| - 1], ids);
      if n < |rows| - 1 then n else if rows[n].id !in ids then n else n + 1
  }

  /** The nodes whose foreign key is the given one, in order. */
  function GroupOf(nodes: seq<Node>, key: string): seq<Node> {
    if nodes == [] then []
    else GroupOf(nodes[..|nodes| - 1], key) + (if nodes[|nodes| - 1].row.fk == Some(key) then [nodes[|nodes| - 1]] else [])
  }

  lemma {:induction false} GroupMember(nodes: seq<Node>, key: string, m: Node)
    ensures m in GroupOf(nodes, key) <==> m in nodes && m.row.fk == Some(key)
  {
    if nodes != [] {
      assert nodes == nodes[..|nodes| - 1] + [nodes[|nodes| - 1]];
      GroupMember(nodes[..|nodes| - 1], key, m);
    }
  }

  /** `nodeids` partitions the nodes that have a key by that key, in node order. */
  ghost predicate Groups(nodeids: map<string, seq<Node>>, nodes: seq<Node>, ids: seq<string>) {
    && nodeids.Keys == ToSet(ids)
    && (forall key :: key in nodeids ==> nodeids[key] == GroupOf(nodes, key))
    && (forall key :: key !in nodeids ==> GroupOf(nodes, key) == [])
  }

  /** What a node's `one` is after the neighbours `rows` were assigned. */
  ghost predicate Assigned(n: Node, before: Node?, rows: seq<Row>)
    reads n
  {
    if n.row.fk.None? || LastWithId(rows, n.row.fk.value).None? then n.one == before
    else n.one != null && n.one.row == LastWithId(rows, n.row.fk.value).value
  }

  /** First pass of many-to-one loading: the distinct keys and the nodes under each. */
  method GroupNodes(nodes: seq<Node>) returns (ids: seq<string>, nodeids: map<string, seq<Node>>)
    ensures ids == FirstSeen(Keys(RowsOf(nodes)))
    ensures Groups(nodeids, nodes, ids)
  {
    ids := [];
    nodeids := map[];
    for i := 0 to |nodes|
      invariant ids == FirstSeen(Keys(RowsOf(nodes[..i])))
      invariant Groups(nodeids, nodes[..i], ids)
    {
      assert nodes[..i + 1] == nodes[..i] + [nodes[i]];
      KeysOneMore(nodes[..i], nodes[i]);
      if nodes[i].row.fk.None? {
        GroupsSkip(nodeids, nodes[..i], nodes[i], ids);
        continue;
      }
      var fk := nodes[i].row.fk.value;
      GroupsGrow(nodeids, nodes[..i], nodes[i], fk, ids);
      assert fk in nodeids <==> fk in ids;
      if fk !in nodeids {
        ids := ids + [fk];
      }
      nodeids := nodeids[fk := (if fk in nodeids then nodeids[fk] else []) + [nodes[i]]];
    }
    assert nodes[..|nodes|] == nodes;
  }

  /** A node without a key changes no group. */
  lemma GroupsSkip(nodeids: map<string, seq<Node>>, nodes: seq<Node>, n: Node, ids: seq<string>)
    requires Groups(nodeids, nodes, ids) && n.row.fk.None?
    ensures Groups(nodeids, nodes + [n], ids)
  {
    hide GroupOf;
    forall key ensures GroupOf(nodes + [n], key) == GroupOf(nodes, key) {
      GroupOfSnoc(nodes, n, key);
    }
  }

  /** A node with a key joins the group of that key, at its end. */
  lemma GroupsGrow(nodeids: map<string, seq<Node>>, nodes: seq<Node>, n: Node, fk: string, ids: seq<string>)
    requires Groups(nodeids, nodes, ids) && n.row.fk == Some(fk)
    ensures Groups(nodeids[fk := (if fk in nodeids then nodeids[fk] else []) + [n]], nodes + [n],
                   if fk in nodeids then ids else ids + [fk])
  {
    hide GroupOf;
    var grown := nodeids[fk := (if fk in nodeids then nodeids[fk] else []) + [n]];
    assert grown.Keys == ToSet(if fk in nodeids then ids else ids + [fk]) by {
      ToSetAppend(ids, [fk]);
    }
    forall key | key in grown ensures grown[key] == GroupOf(nodes + [n], key) {
      GroupOfSnoc(nodes, n, key);
    }
    forall key | key !in grown ensures GroupOf(nodes + [n], key) == [] {
      GroupOfSnoc(nodes, n, key);
    }
  }

  lemma GroupOfSnoc(nodes: seq<Node>, n: Node, key: string)
    ensures GroupOf(nodes + [n], key) == GroupOf(nodes, key) + (if n.row.fk == Some(key) then [n] else [])
  {
    assert (nodes + [n])[..|nodes|] == nodes;
  }

  lemma KeysOneMore(nodes: seq<Node>, n: Node)
    ensures FirstSeen(Keys(RowsOf(nodes + [n]))) ==
            var ids := FirstSeen(Keys(RowsOf(nodes)));
            if n.row.fk.None? || n.row.fk.value in ids then ids else ids + [n.row.fk.value]
  {
    var keys := Keys(RowsOf(nodes));
    assert RowsOf(nodes + [n])[..|nodes|] == RowsOf(nodes);
    if n.row.fk.Some? {
      assert (keys + [n.row.fk.value])[..|keys|] == keys;
    } else {
      assert keys + [] == keys;
    }
  }

  ghost predicate AllAssigned(nodes: seq<Node>, before: seq<Node?>, rows: seq<Row>)
    requires |before| == |nodes|
    reads nodes
  {
    forall i :: 0 <= i < |nodes| ==> Assigned(nodes[i], before[i], rows)
  }

  /** Last pass: each neighbour becomes the `one` of every node under its id. */
  method AssignGroups(nodes: seq<Node>, ids: seq<string>, nodeids: map<string, seq<Node>>, neighbors: seq<Node>)
    returns (err: Option<LoadError>)
    requires Groups(nodeids, nodes, ids)
    modifies nodes`one
    ensures var rows := RowsOf(neighbors);
            var n := FirstForeign(rows, ids);
            && err == (if n == |rows| then None else Some(UnexpectedKey(rows[n].id)))
            && forall i :: 0 <= i < |nodes| ==> Assigned(nodes[i], old(nodes[i].one), rows[..n])
  {
    ghost var rows := RowsOf(neighbors);
    ghost var before := seq(|nodes|, i requires 0 <= i < |nodes| reads nodes => nodes[i].one);
    assert rows[..0] == [];
    for j := 0 to |neighbors|
      invariant AllAssigned(nodes, before, rows[..j])
      invariant FirstForeign(rows[..j], ids) == j
    {
      var n := neighbors[j];
      ForeignOneMore(rows, ids, j);
      if n.row.id !in nodeids {
        return Some(UnexpectedKey(n.row.id));
      }
      AssignGroup(nodes, nodeids[n.row.id], n, before, rows[..j]);
    }
    assert rows[..|neighbors|] == rows;
    return None;
  }

  method AssignGroup(nodes: seq<Node>, group: seq<Node>, n: Node, ghost before: seq<Node?>, ghost rows: seq<Row>)
    requires group == GroupOf(nodes, n.row.id)
    requires |before| == |nodes| && AllAssigned(nodes, before, rows)
    modifies nodes`one
    ensures AllAssigned(nodes, before, rows + [n.row])
  {
    forall m | m in group ensures m in nodes {
      GroupMember(nodes, n.row.id, m);
    }
    for i := 0 to |group|
      invariant forall k :: 0 <= k < |nodes| ==> nodes[k].one == if nodes[k] in group[..i] then n else old(nodes[k].one)
    {
      assert group[i] in nodes;
      group[i].one := n;
      assert group[..i + 1] == group[..i] + [group[i]];
    }
    assert group[..|group|] == group;
    assert (rows + [n.row])[..|rows|] == rows;
    forall k | 0 <= k < |nodes| ensures Assigned(nodes[k], before[k], rows + [n.row]) {
      GroupMember(nodes, n.row.id, nodes[k]);
      assert old(Assigned(nodes[k], before[k], rows));
    }
  }

  lemma ForeignOneMore(rows: seq<Row>, ids: seq<string>, j: nat)
    requires j < |rows| && FirstForeign(rows[..j], ids) == j
    ensures rows[..j + 1] == rows[..j] + [rows[j]]
    ensures if rows[j].id !in ToSet(ids) then FirstForeign(rows, ids) == j else FirstForeign(rows[..j + 1], ids) == j + 1
  {
    assert rows[..j + 1][..j] == rows[..j];
    assert forall k :: 0 <= k < j ==> rows[..j][k] == rows[k];
  }

  /** Many-to-one loading (loadRole, loadUser); a node without a key is skipped. */
  method LoadOne(nodes: seq<Node>, query: Query) returns (err: Option<LoadError>)
    modifies nodes`one, query
    ensures query.fields == old(query.fields)
    ensures query.predicates == old(query.predicates) +
                                (if Keys(RowsOf(nodes)) == [] then [] else [IDIn(FirstSeen(Keys(RowsOf(nodes))))])
    ensures Keys(RowsOf(nodes)) == [] ==> err.None? && forall i :: 0 <= i < |nodes| ==> nodes[i].one == old(nodes[i].one)
    ensures Keys(RowsOf(nodes)) != [] && query.Answer().Err? ==>
              err == Some(QueryFailed(query.Answer().error)) && forall i :: 0 <= i < |nodes| ==> nodes[i].one == old(nodes[i].one)
    ensures Keys(RowsOf(nodes)) != [] && query.Answer().Ok? ==>
              var rows := query.Answer().value;
              var n := FirstForeign(rows, FirstSeen(Keys(RowsOf(nodes))));
              && err == (if n == |rows| then None else Some(UnexpectedKey(rows[n].id)))
              && forall i :: 0 <= i < |nodes| ==> Assigned(nodes[i], old(nodes[i].one), rows[..n])
  {
    var ids, nodeids := GroupNodes(nodes);
    FirstSeenEmpty(Keys(RowsOf(nodes)));
    if |ids| == 0 {
      return None;
    }
    query.Where(IDIn(ids));
    var answer := query.All();
    if answer.Err? {
      return Some(QueryFailed(answer.error));
    }
    err := AssignGroups(nodes, ids, nodeids, answer.value);
  }

  lemma {:induction false} FirstSeenEmpty(s: seq<string>)
    ensures FirstSeen(s) == [] <==> s == []
  {
    if s != [] {
      FirstSeenEmpty(s[..|s| - 1]);
    }
  }
}
