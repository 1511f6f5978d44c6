/** The column list of a query, and what a projection keeps of a row. */
module Projection {
  import opened Common
  import opened EagerLoad

  const ALL_COLUMNS := [FIELD_ID, FIELD_FK, FIELD_DATA]

  /** The selected fields other than the id, repeats kept. */
  function NonIds(fields: seq<string>): seq<string> {
    if fields == [] then []
    else NonIds(fields[..|fields| - 1]) + (if fields[|fields| - 1] != FIELD_ID then [fields[|fields| - 1]] else [])
  }

  function SpecColumns(fields: seq<string>, withParent: bool): seq<string> {
    if fields == [] then ALL_COLUMNS
    else
      var cols := [FIELD_ID] + NonIds(fields);
      if withParent then AppendOnce(cols, FIELD_FK) else cols
  }

  /** The columns that a child query reads once the loader has extended its projection. */
  function ChildColumns(fields: seq<string>): seq<string> {
    SpecColumns(if fields == [] then [] else AppendOnce(fields, FIELD_FK), false)
  }

  /** The column part of querySpec. */
  method QuerySpecColumns(fields: seq<string>, withParent: bool) returns (cols: seq<string>)
    ensures cols == SpecColumns(fields, withParent)
  {
    cols := ALL_COLUMNS;
    if |fields| > 0 {
      cols := [];
      cols := cols + [FIELD_ID];
      for i := 0 to |fields|
        invariant cols == [FIELD_ID] + NonIds(fields[..i])
      {
        assert fields[..i + 1][..i] == fields[..i];
        if fields[i] != FIELD_ID {
          cols := cols + [fields[i]];
        }
      }
      assert fields[..|fields|] == fields;
      if withParent {
        cols := AppendOnce(cols, FIELD_FK);
      }
    }
  }

  lemma {:induction false} NonIdsMembers(fields: seq<string>, f: string)
    ensures f in NonIds(fields) <==> f in fields && f != FIELD_ID
  {
    if fields != [] {
      assert fields == fields[..|fields| - 1] + [fields[|fields| - 1]];
      NonIdsMembers(fields[..|fields| - 1], f);
    }
  }

  /** A field other than the id is selected as it is. */
  lemma OneNonId(f: string)
    ensures NonIds([f]) == if f == FIELD_ID then [] else [f]
  {
    assert [f][..0] == [];
  }

  /** The selected fields stay in their order. */
  lemma {:induction false} NonIdsCompose(a: seq<string>, b: seq<string>)
    ensures NonIds(a + b) == NonIds(a) + NonIds(b)
  {
    if b == [] {
      assert a + b == a;
    } else {
      var n := |b| - 1;
      var last := if b[n] != FIELD_ID then [b[n]] else [];
      assert (a + b)[..|a + b| - 1] == a + b[..n] && (a + b)[|a + b| - 1] == b[n];
      NonIdsCompose(a, b[..n]);
      assert NonIds(a) + (NonIds(b[..n]) + last) == NonIds(a) + NonIds(b[..n]) + last;
    }
  }

  /**
   * For every list of selected fields the id is a column once, in front; the foreign key is a
   * column whenever the parent edge is requested; and nothing else is added.
   */
  lemma ColumnsOfProjection(fields: seq<string>, withParent: bool)
    ensures var cols := SpecColumns(fields, withParent);
            && cols != [] && cols[0] == FIELD_ID && FIELD_ID !in cols[1..]
            && (withParent ==> FIELD_FK in cols)
            && (fields != [] ==> forall f :: f in cols <==> f == FIELD_ID || f in fields || (withParent && f == FIELD_FK))
  {
    if fields == [] {
    } else {
      var rest := NonIds(fields);
      forall f ensures f in rest <==> f in fields && f != FIELD_ID {
        NonIdsMembers(fields, f);
      }
      var cols := [FIELD_ID] + rest;
      assert cols[1..] == rest;
      if withParent && FIELD_FK !in cols {
        assert SpecColumns(fields, withParent) == cols + [FIELD_FK];
        assert (cols + [FIELD_FK])[1..] == rest + [FIELD_FK];
      } else {
        assert SpecColumns(fields, withParent) == cols;
      }
    }
  }

  /** A child query that a loader has extended reads the id, the key and everything it selected. */
  lemma ChildColumnsRead(fields: seq<string>)
    ensures FIELD_ID in ChildColumns(fields) && FIELD_FK in ChildColumns(fields)
    ensures forall f :: f in fields ==> f in ChildColumns(fields)
    ensures fields != [] ==> forall f :: f in ChildColumns(fields) ==> f in fields || f == FIELD_ID || f == FIELD_FK
  {
    if fields != [] {
      ColumnsOfProjection(AppendOnce(fields, FIELD_FK), false);
    }
  }

  /** A row read under a column list: unread columns keep their zero value. */
  function ProjectRow(r: Row, cols: seq<string>): Row {
    Row(if FIELD_ID in cols then r.id else "",
        if FIELD_FK in cols then r.fk else None,
        if FIELD_DATA in cols then r.data else "")
  }

  function Project(rows: seq<Row>, cols: seq<string>): (p: seq<Row>)
    ensures |p| == |rows| && forall k :: 0 <= k < |rows| ==> p[k] == ProjectRow(rows[k], cols)
  {
    seq(|rows|, k requires 0 <= k < |rows| => ProjectRow(rows[k], cols))
  }
}

/** Eager loading over the state of a table: the hash joins are nested-loop joins. */
module EagerJoin {
  import opened Common
  import opened EagerLoad
  import opened Projection

  predicate Matches(r: Row, preds: seq<Predicate>) {
    forall i :: 0 <= i < |preds| ==> preds[i].Holds(r)
  }

  /** The rows of a table that satisfy every predicate, in table order. */
  function Select(table: seq<Row>, preds: seq<Predicate>): seq<Row> {
    if table == [] then []
    else
      Select(table[..|table| - 1], preds)
      + (if Matches(table[|table| - 1], preds) then [table[|table| - 1]] else [])
  }

  /** A query whose answers, when it does not fail, come from a table, without interceptors in between. */
  ghost predicate AnswersFrom(run: (seq<string>, seq<Predicate>) -> Result<seq<Row>, string>, table: seq<Row>) {
    forall fields, preds :: run(fields, preds).Ok? ==>
      run(fields, preds).value == Project(Select(table, preds), SpecColumns(fields, false))
  }

  ghost predicate NeverFails(run: (seq<string>, seq<Predicate>) -> Result<seq<Row>, string>) {
    forall fields, preds :: run(fields, preds).Ok?
  }

  ghost predicate DistinctIds(rows: seq<Row>) {
    forall i, j :: 0 <= i < j < |rows| ==> rows[i].id != rows[j].id
  }

  lemma {:induction false} SelectMembers(table: seq<Row>, preds: seq<Predicate>, r: Row)
    ensures r in Select(table, preds) <==> r in table && Matches(r, preds)
  {
    if table != [] {
      assert table == table[..|table| - 1] + [table[|table| - 1]];
      SelectMembers(table[..|table| - 1], preds, r);
    }
  }

  lemma {:induction false} ChildRowsMembers(rows: seq<Row>, id: string, r: Row)
    ensures r in ChildRows(rows, id) <==> r in rows && r.fk == Some(id)
  {
    if rows != [] {
      assert rows == rows[..|rows| - 1] + [rows[|rows| - 1]];
      ChildRowsMembers(rows[..|rows| - 1], id, r);
    }
  }

  lemma MatchesSnoc(r: Row, preds: seq<Predicate>, p: Predicate)
    ensures Matches(r, preds + [p]) <==> Matches(r, preds) && p.Holds(r)
  {
    if Matches(r, preds + [p]) {
      assert (preds + [p])[|preds|] == p;
      assert forall i :: 0 <= i < |preds| ==> (preds + [p])[i] == preds[i];
    }
  }

  lemma ProjectSnoc(rows: seq<Row>, r: Row, cols: seq<string>)
    ensures Project(rows + [r], cols) == Project(rows, cols) + [ProjectRow(r, cols)]
  {
  }

  lemma ChildRowsSnoc(rows: seq<Row>, r: Row, id: string)
    ensures ChildRows(rows + [r], id) == ChildRows(rows, id) + (if r.fk == Some(id) then [r] else [])
  {
    assert (rows + [r])[..|rows|] == rows;
  }

  /** Filtering by the parents' ids loses no child of any of these parents. */
  lemma {:induction false} FilteredChildren(table: seq<Row>, preds: seq<Predicate>, ids: seq<string>, cols: seq<string>, id: string)
    requires id in ids && FIELD_FK in cols
    ensures ChildRows(Project(Select(table, preds + [FKIn(ids)]), cols), id) == Project(ChildRows(Select(table, preds), id), cols)
  {
    if table != [] {
      var init, r := table[..|table| - 1], table[|table| - 1];
      FilteredChildren(init, preds, ids, cols, id);
      MatchesSnoc(r, preds, FKIn(ids));
      var filtered, plain := Select(init, preds + [FKIn(ids)]), Select(init, preds);
      ProjectSnoc(filtered, r, cols);
      ChildRowsSnoc(Project(filtered, cols), ProjectRow(r, cols), id);
      ChildRowsSnoc(plain, r, id);
      ProjectSnoc(ChildRows(plain, id), r, cols);
      assert filtered + [] == filtered && plain + [] == plain;
    }
  }

  /** The rows that a filtered query returns never stray. */
  lemma FilteredNeverStrays(table: seq<Row>, preds: seq<Predicate>, ids: seq<string>, cols: seq<string>)
    requires FIELD_FK in cols
    ensures var rows := Project(Select(table, preds + [FKIn(ids)]), cols); FirstStray(rows, ids) == |rows|
  {
    var sel := Select(table, preds + [FKIn(ids)]);
    forall k | 0 <= k < |sel| ensures sel[k].fk.Some? && sel[k].fk.value in ids {
      SelectMembers(table, preds + [FKIn(ids)], sel[k]);
      MatchesSnoc(sel[k], preds, FKIn(ids));
    }
  }

  /**
   * MAIN: over a table, one-to-many loading never reports an error, and the children that each
   * id's last node receives are the nested-loop join of that id with the rows the query selects.
   */
  lemma LoadManyIsJoin(table: seq<Row>, preds: seq<Predicate>, fields: seq<string>, ids: seq<string>)
    ensures var cols := ChildColumns(fields);
            var rows := Project(Select(table, preds + [FKIn(ids)]), cols);
            && FirstStray(rows, ids) == |rows|
            && forall i :: 0 <= i < |ids| && IsLast(ids, i) ==>
                 Handed(ids, i, rows) == Project(ChildRows(Select(table, preds), ids[i]), cols)
  {
    var cols := ChildColumns(fields);
    ColumnsOfProjection(if fields == [] then [] else AppendOnce(fields, FIELD_FK), false);
    FilteredNeverStrays(table, preds, ids, cols);
    forall i | 0 <= i < |ids| && IsLast(ids, i)
      ensures Handed(ids, i, Project(Select(table, preds + [FKIn(ids)]), cols)) ==
              Project(ChildRows(Select(table, preds), ids[i]), cols)
    {
      FilteredChildren(table, preds, ids, cols, ids[i]);
    }
  }

  /** The lengths of the child lists, node by node. */
  function Lengths(ids: seq<string>, rows: seq<Row>): (ls: seq<nat>)
    ensures |ls| == |ids|
  {
    seq(|ids|, i requires 0 <= i < |ids| => |Handed(ids, i, rows)|)
  }

  function Sum(ls: seq<nat>): nat {
    if ls == [] then 0 else Sum(ls[..|ls| - 1]) + ls[|ls| - 1]
  }

  /** Conservation: when nothing strays, every neighbour ends up in exactly one child list. */
  lemma {:induction false} ChildrenAddUp(ids: seq<string>, rows: seq<Row>)
    requires FirstStray(rows, ids) == |rows|
    ensures Sum(Lengths(ids, rows)) == |rows|
  {
    if rows == [] {
      SumOfZeros(Lengths(ids, rows));
    } else {
      var init, r := rows[..|rows| - 1], rows[|rows| - 1];
      assert rows == init + [r];
      ChildrenAddUp(ids, init);
      var k := LastPos(ids, r.fk.value);
      forall i | 0 <= i < |ids| ensures Lengths(ids, rows)[i] == Lengths(ids, init)[i] + (if i == k then 1 else 0) {
        HandOneMore(ids, init, r, i);
      }
      SumWithOneMore(Lengths(ids, init), Lengths(ids, rows), k);
    }
  }

  lemma {:induction false} SumOfZeros(ls: seq<nat>)
    requires forall i :: 0 <= i < |ls| ==> ls[i] == 0
    ensures Sum(ls) == 0
  {
    if ls != [] {
      SumOfZeros(ls[..|ls| - 1]);
    }
  }

  lemma {:induction false} SumWithOneMore(a: seq<nat>, b: seq<nat>, k: nat)
    requires |a| == |b| && k < |a| && forall i :: 0 <= i < |a| ==> b[i] == a[i] + (if i == k then 1 else 0)
    ensures Sum(b) == Sum(a) + 1
  {
    var n := |a| - 1;
    if k == n {
      assert a[..n] == b[..n];
    } else {
      SumWithOneMore(a[..n], b[..n], k);
    }
  }

  // ---- The id list of many-to-one loading ----

  /** The first position of an element. */
  function FirstPos(s: seq<string>, x: string): (k: nat)
    requires x in s
    ensures k < |s| && s[k] == x && forall j :: 0 <= j < k ==> s[j] != x
  {
    if s[0] == x then 0 else 1 + FirstPos(s[1..], x)
  }

  /** MAIN: the issued id list has no repeats, names exactly the keys, in first-seen order. */
  lemma {:induction false} IssuedIds(keys: seq<string>)
    ensures NoDuplicates(FirstSeen(keys))
    ensures ToSet(FirstSeen(keys)) == ToSet(keys)
    ensures forall i, j :: 0 <= i < j < |FirstSeen(keys)| ==>
              FirstSeen(keys)[i] in keys && FirstSeen(keys)[j] in keys
              && FirstPos(keys, FirstSeen(keys)[i]) < FirstPos(keys, FirstSeen(keys)[j])
  {
    if keys != [] {
      var init, k := keys[..|keys| - 1], keys[|keys| - 1];
      var before := FirstSeen(init);
      IssuedIds(init);
      assert keys == init + [k];
      ToSetAppend(init, [k]);
      ToSetAppend(before, [k]);
      assert forall x :: x in before <==> x in ToSet(before);
      assert forall x :: x in init <==> x in ToSet(init);
      forall x | x in init ensures x in keys && FirstPos(keys, x) == FirstPos(init, x) {
        assert keys[FirstPos(init, x)] == x;
      }
    }
  }

  /** Filtering by the issued ids keeps, for each key, the last row bearing it. */
  lemma {:induction false} FilteredOne(table: seq<Row>, preds: seq<Predicate>, ids: seq<string>, cols: seq<string>, id: string)
    requires id in ids && FIELD_ID in cols
    ensures LastWithId(Project(Select(table, preds + [IDIn(ids)]), cols), id) ==
            match LastWithId(Select(table, preds), id) case None => None case Some(r) => Some(ProjectRow(r, cols))
  {
    if table != [] {
      var init, r := table[..|table| - 1], table[|table| - 1];
      FilteredOne(init, preds, ids, cols, id);
      MatchesSnoc(r, preds, IDIn(ids));
      var filtered, plain := Select(init, preds + [IDIn(ids)]), Select(init, preds);
      ProjectSnoc(filtered, r, cols);
      LastWithIdSnoc(plain, r, id);
      LastWithIdSnoc(Project(filtered, cols), ProjectRow(r, cols), id);
      assert filtered + [] == filtered && plain + [] == plain;
      hide LastWithId;
    }
  }

  lemma LastWithIdSnoc(rows: seq<Row>, r: Row, id: string)
    ensures LastWithId(rows + [r], id) == if r.id == id then Some(r) else LastWithId(rows, id)
  {
    assert (rows + [r])[..|rows|] == rows;
  }

  /** MAIN: over a table, many-to-one loading never fails and finds each key's selected row. */
  lemma LoadOneIsJoin(table: seq<Row>, preds: seq<Predicate>, fields: seq<string>, keys: seq<string>)
    ensures var cols := SpecColumns(fields, false);
            var ids := FirstSeen(keys);
            var rows := Project(Select(table, preds + [IDIn(ids)]), cols);
            && FirstForeign(rows, ids) == |rows|
            && forall key :: key in keys ==>
                 LastWithId(rows, key) ==
                 match LastWithId(Select(table, preds), key) case None => None case Some(r) => Some(ProjectRow(r, cols))
  {
    var cols := SpecColumns(fields, false);
    var ids := FirstSeen(keys);
    ColumnsOfProjection(fields, false);
    IssuedIds(keys);
    var sel := Select(table, preds + [IDIn(ids)]);
    forall k | 0 <= k < |sel| ensures sel[k].id in ids {
      SelectMembers(table, preds + [IDIn(ids)], sel[k]);
      MatchesSnoc(sel[k], preds, IDIn(ids));
    }
    forall key | key in keys
      ensures LastWithId(Project(sel, cols), key) ==
              match LastWithId(Select(table, preds), key) case None => None case Some(r) => Some(ProjectRow(r, cols))
    {
      assert key in ToSet(keys);
      FilteredOne(table, preds, ids, cols, key);
    }
  }

  /** With distinct ids in the table, the row found for an id is the row with that id. */
  lemma OnlyRowWithId(rows: seq<Row>, r: Row)
    requires DistinctIds(rows) && r in rows
    ensures LastWithId(rows, r.id) == Some(r)
  {
  }

  /** `u` lists `s`, by id. */
  ghost predicate Lists(children: seq<Row>, id: string) {
    exists k :: 0 <= k < |children| && children[k].id == id
  }

  /** The parent of a row among the rows of a table that a query selects. */
  function ParentOf(r: Row, table: seq<Row>, preds: seq<Predicate>): Option<Row> {
    if r.fk.None? then None else LastWithId(Select(table, preds), r.fk.value)
  }

  /**
   * MAIN: the two joins of an edge are converses: under distinct ids, and whatever the child query
   * projects, a session is listed under a user iff the user is the session's parent.
   */
  lemma JoinsAreConverse(users: seq<Row>, sessions: seq<Row>, u: Row, s: Row, cols: seq<string>)
    requires DistinctIds(users) && DistinctIds(sessions) && u in users && s in sessions && FIELD_ID in cols
    ensures Lists(Project(ChildRows(Select(sessions, []), u.id), cols), s.id) <==>
            ParentOf(s, users, []).Some? && ParentOf(s, users, []).value.id == u.id
  {
    SelectAll(users);
    SelectAll(sessions);
    ListsIff(sessions, u.id, s, cols);
    OnlyRowWithId(users, u);
  }

  /** One-to-many loading through a query over a table: only the database can make it fail. */
  method LoadManyFromTable(nodes: seq<Node>, query: Query, ghost table: seq<Row>) returns (err: Option<LoadError>)
    requires Distinct(nodes) && AnswersFrom(query.run, table)
    modifies nodes`many, query
    ensures err.Some? ==> err.value.QueryFailed? && !NeverFails(query.run)
    ensures err.None? ==>
              var ids, cols := Ids(RowsOf(nodes)), ChildColumns(old(query.fields));
              forall i :: 0 <= i < |nodes| ==>
                RowsOf(nodes[i].many) ==
                if IsLast(ids, i) then Project(ChildRows(Select(table, old(query.predicates)), ids[i]), cols) else []
  {
    ghost var ids, fields, preds := Ids(RowsOf(nodes)), query.fields, query.predicates;
    err := LoadMany(nodes, query);
    if query.Answer().Ok? {
      ghost var rows := Project(Select(table, preds + [FKIn(ids)]), ChildColumns(fields));
      assert query.Answer().value == rows;
      LoadManyIsJoin(table, preds, fields, ids);
      assert rows[..|rows|] == rows;
    }
  }

  /** After filtering by the issued ids every node still finds its parent, and nothing foreign comes back. */
  lemma ParentsFound(nodeRows: seq<Row>, table: seq<Row>, preds: seq<Predicate>, fields: seq<string>)
    ensures var cols := SpecColumns(fields, false);
            var ids := FirstSeen(Keys(nodeRows));
            var rows := Project(Select(table, preds + [IDIn(ids)]), cols);
            && FirstForeign(rows, ids) == |rows| && rows[..|rows|] == rows
            && forall r :: r in nodeRows && r.fk.Some? ==>
                 r.fk.value in Keys(nodeRows)
                 && LastWithId(rows, r.fk.value) ==
                    match ParentOf(r, table, preds) case None => None case Some(p) => Some(ProjectRow(p, cols))
  {
    LoadOneIsJoin(table, preds, fields, Keys(nodeRows));
    forall r | r in nodeRows && r.fk.Some? ensures r.fk.value in Keys(nodeRows) {
      KeysMembers(nodeRows, r);
    }
  }

  /** Many-to-one loading through a query over a table. */
  method LoadOneFromTable(nodes: seq<Node>, query: Query, ghost table: seq<Row>) returns (err: Option<LoadError>)
    requires AnswersFrom(query.run, table)
    modifies nodes`one, query
    ensures err.Some? ==> err.value.QueryFailed? && !NeverFails(query.run)
    ensures err.None? ==>
              var cols := SpecColumns(old(query.fields), false);
              forall i :: 0 <= i < |nodes| ==>
                match ParentOf(nodes[i].row, table, old(query.predicates))
                case None => nodes[i].one == old(nodes[i].one)
                case Some(p) => nodes[i].one != null && nodes[i].one.row == ProjectRow(p, cols)
  {
    ghost var nodeRows, fields, preds := RowsOf(nodes), query.fields, query.predicates;
    ParentsFound(nodeRows, table, preds, fields);
    err := LoadOne(nodes, query);
    if err.None? {
      forall i | 0 <= i < |nodes|
        ensures match ParentOf(nodes[i].row, table, preds)
                case None => nodes[i].one == old(nodes[i].one)
                case Some(p) => nodes[i].one != null && nodes[i].one.row == ProjectRow(p, SpecColumns(fields, false))
      {
        assert nodes[i].row in nodeRows by { assert nodeRows[i] == nodes[i].row; }
        if nodes[i].row.fk.Some? {
          assert Assigned(nodes[i], old(nodes[i].one), query.Answer().value);
        }
      }
    }
  }

  /** On nodes: load both ways without a failure, and the edges that were written are converses. */
  method LoadBothWays(us: seq<Node>, ss: seq<Node>, sessionQuery: Query, userQuery: Query,
                      ghost users: seq<Row>, ghost sessions: seq<Row>) returns (err: Option<LoadError>, err': Option<LoadError>)
    requires DistinctIds(users) && DistinctIds(sessions)
    requires (forall r :: r in RowsOf(us) ==> r in users) && (forall r :: r in RowsOf(ss) ==> r in sessions)
    requires Distinct(us) && DistinctIds(RowsOf(us)) && forall j :: 0 <= j < |ss| ==> ss[j].one == null
    requires sessionQuery != userQuery && sessionQuery.predicates == [] == userQuery.predicates
    requires AnswersFrom(sessionQuery.run, sessions) && AnswersFrom(userQuery.run, users)
    modifies us`many, ss`one, sessionQuery, userQuery
    ensures NeverFails(sessionQuery.run) && NeverFails(userQuery.run) ==> err.None? && err'.None?
    ensures err.None? && err'.None? ==>
              forall i, j :: 0 <= i < |us| && 0 <= j < |ss| ==>
                (Lists(RowsOf(us[i].many), ss[j].row.id) <==> ss[j].one != null && ss[j].one.row.id == us[i].row.id)
  {
    ghost var cols := ChildColumns(sessionQuery.fields);
    ColumnsOfProjection(if sessionQuery.fields == [] then [] else AppendOnce(sessionQuery.fields, FIELD_FK), false);
    ColumnsOfProjection(userQuery.fields, false);
    err := LoadManyFromTable(us, sessionQuery, sessions);
    err' := LoadOneFromTable(ss, userQuery, users);
    forall i, j | err.None? && err'.None? && 0 <= i < |us| && 0 <= j < |ss|
      ensures Lists(RowsOf(us[i].many), ss[j].row.id) <==> ss[j].one != null && ss[j].one.row.id == us[i].row.id
    {
      LastOfDistinct(RowsOf(us), i);
      assert RowsOf(us)[i] in users && RowsOf(ss)[j] in sessions;
      JoinsAreConverse(users, sessions, us[i].row, ss[j].row, cols);
    }
  }

  lemma LastOfDistinct(rows: seq<Row>, i: nat)
    requires DistinctIds(rows) && i < |rows|
    ensures IsLast(Ids(rows), i)
  {
    assert rows[LastPos(Ids(rows), Ids(rows)[i])].id == rows[i].id;
  }

  function IndexOf(rows: seq<Row>, r: Row): (k: nat)
    requires r in rows
    ensures k < |rows| && rows[k] == r
  {
    if rows[0] == r then 0 else 1 + IndexOf(rows[1..], r)
  }

  lemma {:induction false} SelectAll(table: seq<Row>)
    ensures Select(table, []) == table
  {
    if table != [] {
      SelectAll(table[..|table| - 1]);
      assert table == table[..|table| - 1] + [table[|table| - 1]];
    }
  }

  lemma {:induction false} KeysMembers(rows: seq<Row>, r: Row)
    requires r in rows && r.fk.Some?
    ensures r.fk.value in Keys(rows)
  {
    if rows[|rows| - 1] != r {
      assert rows == rows[..|rows| - 1] + [rows[|rows| - 1]];
      KeysMembers(rows[..|rows| - 1], r);
    }
  }

  lemma ListsIff(sessions: seq<Row>, id: string, s: Row, cols: seq<string>)
    requires DistinctIds(sessions) && s in sessions && FIELD_ID in cols
    ensures Lists(Project(ChildRows(sessions, id), cols), s.id) <==> s.fk == Some(id)
  {
    var children := ChildRows(sessions, id);
    if Lists(Project(children, cols), s.id) {
      var k :| 0 <= k < |children| && Project(children, cols)[k].id == s.id;
      ChildRowsMembers(sessions, id, children[k]);
      assert sessions[IndexOf(sessions, children[k])].id == sessions[IndexOf(sessions, s)].id;
    }
    if s.fk == Some(id) {
      ChildRowsMembers(sessions, id, s);
      assert Project(children, cols)[IndexOf(children, s)].id == s.id;
    }
  }

  /**
   * MAIN: a projection changes no loaded edge. Whatever fields the child query selects, each node
   * gets children with the same ids as under the full column set; and whatever fields the query
   * of the nodes selects, requesting the parent edge makes it see the same keys.
   */
  lemma ProjectionKeepsEdges(table: seq<Row>, preds: seq<Predicate>, childFields: seq<string>, nodeFields: seq<string>,
                             nodes: seq<Row>, id: string)
    requires id in Ids(nodes)
    ensures var cols := ChildColumns(childFields);
            var sel := Select(table, preds + [FKIn(Ids(nodes))]);
            Ids(ChildRows(Project(sel, cols), id)) == Ids(ChildRows(Project(sel, ALL_COLUMNS), id))
    ensures var seen := Project(nodes, SpecColumns(nodeFields, true));
            Ids(seen) == Ids(nodes) && Keys(seen) == Keys(nodes)
  {
    SameChildren(table, preds, ChildColumns(childFields), Ids(nodes), id) by {
      ColumnsOfProjection(if childFields == [] then [] else AppendOnce(childFields, FIELD_FK), false);
    }
    SeenKeys(nodes, nodeFields);
  }

  /** Two column lists that both read the id and the key give the same child ids. */
  lemma SameChildren(table: seq<Row>, preds: seq<Predicate>, cols: seq<string>, ids: seq<string>, id: string)
    requires id in ids && FIELD_ID in cols && FIELD_FK in cols
    ensures var sel := Select(table, preds + [FKIn(ids)]);
            Ids(ChildRows(Project(sel, cols), id)) == Ids(ChildRows(Project(sel, ALL_COLUMNS), id))
  {
    FilteredChildren(table, preds, ids, cols, id);
    FilteredChildren(table, preds, ids, ALL_COLUMNS, id);
  }

  lemma SeenKeys(nodes: seq<Row>, fields: seq<string>)
    ensures var seen := Project(nodes, SpecColumns(fields, true));
            Ids(seen) == Ids(nodes) && Keys(seen) == Keys(nodes)
  {
    ColumnsOfProjection(fields, true);
    KeysUnderProjection(nodes, SpecColumns(fields, true));
  }

  lemma {:induction false} KeysUnderProjection(rows: seq<Row>, cols: seq<string>)
    requires FIELD_FK in cols
    ensures Keys(Project(rows, cols)) == Keys(rows)
  {
    if rows != [] {
      KeysUnderProjection(rows[..|rows| - 1], cols);
      assert Project(rows, cols)[..|rows| - 1] == Project(rows[..|rows| - 1], cols);
    }
  }

  /**
   * Loading leaves its filter in the child query. Loading a second time through the same child
   * query therefore gives a node its children iff it was already among the nodes of the first
   * load, or has none.
   */
  lemma SecondLoadIff(table: seq<Row>, preds: seq<Predicate>, first: seq<string>, second: seq<string>, id: string)
    requires id in second
    ensures ChildRows(Select(table, preds + [FKIn(first)] + [FKIn(second)]), id) == ChildRows(Select(table, preds), id)
            <==> id in first || ChildRows(Select(table, preds), id) == []
  {
    var once := Select(table, preds + [FKIn(first)]);
    FilteredRows(table, preds + [FKIn(first)], second, id);
    if id in first {
      FilteredRows(table, preds, first, id);
    } else {
      var left := ChildRows(once, id);
      if left != [] {
        ChildRowsMembers(once, id, left[0]);
        SelectMembers(table, preds + [FKIn(first)], left[0]);
        MatchesSnoc(left[0], preds, FKIn(first));
        assert false;
      }
    }
  }

  lemma FilteredRows(table: seq<Row>, preds: seq<Predicate>, ids: seq<string>, id: string)
    requires id in ids
    ensures ChildRows(Select(table, preds + [FKIn(ids)]), id) == ChildRows(Select(table, preds), id)
  {
    FilteredChildren(table, preds, ids, ALL_COLUMNS, id);
    FullProjection(Select(table, preds + [FKIn(ids)]));
    FullProjection(ChildRows(Select(table, preds), id));
  }

  lemma FullProjection(rows: seq<Row>)
    ensures Project(rows, ALL_COLUMNS) == rows
  {
  }
}
