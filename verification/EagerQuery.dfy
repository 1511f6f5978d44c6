/**
 * The query of users as a whole: the main query, then its two eager loads, and what a caller
 * sees through the edge accessors; and the queries that expect one row.
 */
module EagerQuery {
  import opened Common
  import opened EagerLoad
  import opened EagerJoin
  import opened Projection

  datatype Failure = Loading(cause: LoadError) | Reporting(e: EntError)

  /** The first `limit` rows, or all of them. */
  function Limited(rows: seq<Row>, limit: Option<nat>): seq<Row> {
    if limit.Some? && limit.value < |rows| then rows[..limit.value] else rows
  }

  /** The user query answers from a table, whenever it does not fail. */
  ghost predicate AnswersLimited(run: (seq<string>, seq<Predicate>, Option<nat>) -> Result<seq<Row>, string>, table: seq<Row>) {
    forall cols, preds, limit :: run(cols, preds, limit).Ok? ==>
      run(cols, preds, limit).value == Project(Limited(Select(table, preds), limit), cols)
  }

  /**
   * What a caller learns of the role of a node that was read from `user`: not loaded unless asked
   * for, not found unless the role query selects the row it refers to, and otherwise that row.
   */
  ghost predicate RoleSeen(n: Node, user: Row, asked: bool, roles: seq<Row>, preds: seq<Predicate>, fields: seq<string>)
    reads n`one
  {
    var seen := n.OneOrErr("role");
    if !asked then seen == Err(NotLoadedError("role"))
    else
      match ParentOf(user, roles, preds)
      case None => seen == Err(NotFoundError("role"))
      case Some(role) => seen.Ok? && seen.value.row == ProjectRow(role, SpecColumns(fields, false))
  }

  /** Likewise for the sessions: the nested-loop join of the user with the selected sessions. */
  ghost predicate SessionsSeen(n: Node, id: string, asked: bool, sessions: seq<Row>, preds: seq<Predicate>, fields: seq<string>)
    reads n`many
  {
    var seen := n.ManyOrErr("sessions");
    if !asked then seen == Err(NotLoadedError("sessions"))
    else seen.Ok? && RowsOf(seen.value) == Project(ChildRows(Select(sessions, preds), id), ChildColumns(fields))
  }

  /** What the nested queries held when the load began. */
  datatype Asked = Asked(loaded: bool, preds: seq<Predicate>, fields: seq<string>)

  /** Both edges of a node read from `user`. */
  ghost predicate Seen(n: Node, user: Row, role: Asked, roles: seq<Row>, session: Asked, sessions: seq<Row>)
    reads n
  {
    && RoleSeen(n, user, role.loaded, roles, role.preds, role.fields)
    && SessionsSeen(n, user.id, session.loaded, sessions, session.preds, session.fields)
  }

  class UserQuery {
    var fields: seq<string>
    var predicates: seq<Predicate>
    var limit: Option<nat>
    var withRole: Query?
    var withSessions: Query?
    /** The database: the selected columns, the predicates and the limit. */
    const run: (seq<string>, seq<Predicate>, Option<nat>) -> Result<seq<Row>, string>

    constructor (run: (seq<string>, seq<Predicate>, Option<nat>) -> Result<seq<Row>, string>)
      ensures this.run == run && fields == [] && predicates == [] && limit.None? && withRole == null == withSessions
    {
      this.run := run;
      fields, predicates, limit, withRole, withSessions := [], [], None, null, null;
    }

    /** The nested queries are two objects, and answer from the two tables. */
    ghost predicate Wired(roles: seq<Row>, sessions: seq<Row>)
      reads this
    {
      && (withRole != null ==> AnswersFrom(withRole.run, roles) && withRole != withSessions)
      && (withSessions != null ==> AnswersFrom(withSessions.run, sessions))
    }

    ghost predicate NothingFails()
      reads this
    {
      && (forall cols, preds, n :: run(cols, preds, n).Ok?)
      && (withRole != null ==> NeverFails(withRole.run)) && (withSessions != null ==> NeverFails(withSessions.run))
    }

    function Answer(): Result<seq<Row>, string>
      reads this
    {
      run(SpecColumns(fields, withRole != null), predicates, limit)
    }

    ghost function AskedRole(): Asked
      reads this, withRole
    {
      if withRole == null then Asked(false, [], []) else Asked(true, withRole.predicates, withRole.fields)
    }

    ghost function AskedSessions(): Asked
      reads this, withSessions
    {
      if withSessions == null then Asked(false, [], []) else Asked(true, withSessions.predicates, withSessions.fields)
    }

    /** The main query: a new node for every row. */
    method QueryNodes() returns (r: Result<seq<Node>, LoadError>)
      ensures r.Err? <==> Answer().Err?
      ensures r.Err? ==> r.error == QueryFailed(Answer().error)
      ensures r.Ok? ==> fresh(r.value) && Distinct(r.value) && RowsOf(r.value) == Answer().value
      ensures r.Ok? ==> forall n :: n in r.value ==>
                n.loadedOne == (withRole != null) && n.loadedMany == (withSessions != null) && n.one == null && n.many == []
    {
      var answer := Answer();
      if answer.Err? {
        return Err(QueryFailed(answer.error));
      }
      var nodes: seq<Node> := [];
      for i := 0 to |answer.value|
        invariant fresh(nodes) && Distinct(nodes) && |nodes| == i
        invariant forall k :: 0 <= k < i ==> nodes[k].row == answer.value[k]
        invariant forall n :: n in nodes ==>
                    n.loadedOne == (withRole != null) && n.loadedMany == (withSessions != null) && n.one == null && n.many == []
      {
        var n := new Node(answer.value[i], withRole != null, withSessions != null);
        nodes := nodes + [n];
      }
      return Ok(nodes);
    }

    /** The role of every node, if it was asked for. */
    method LoadRole(nodes: seq<Node>, ghost roles: seq<Row>) returns (err: Option<LoadError>)
      requires withRole != null ==> AnswersFrom(withRole.run, roles)
      requires forall n :: n in nodes ==> n.loadedOne == (withRole != null) && n.one == null
      modifies nodes`one, withRole
      ensures err.Some? ==> err.value.QueryFailed? && !NothingFails()
      ensures err.None? ==>
                var role := old(AskedRole());
                forall i :: 0 <= i < |nodes| ==> RoleSeen(nodes[i], nodes[i].row, role.loaded, roles, role.preds, role.fields)
    {
      err := None;
      if withRole != null {
        err := LoadOneFromTable(nodes, withRole, roles);
      }
    }

    /** The sessions of every node, if they were asked for. */
    method LoadSessions(nodes: seq<Node>, ghost sessions: seq<Row>) returns (err: Option<LoadError>)
      requires withSessions != null ==> AnswersFrom(withSessions.run, sessions)
      requires Distinct(nodes) && forall n :: n in nodes ==> n.loadedMany == (withSessions != null)
      modifies nodes`many, withSessions
      ensures err.Some? ==> err.value.QueryFailed? && !NothingFails()
      ensures err.None? ==>
                var session := old(AskedSessions());
                forall i :: 0 <= i < |nodes| && (IsLast(Ids(RowsOf(nodes)), i) || !session.loaded) ==>
                  SessionsSeen(nodes[i], nodes[i].row.id, session.loaded, sessions, session.preds, session.fields)
      ensures err.None? ==>
                forall i :: 0 <= i < |nodes| && !IsLast(Ids(RowsOf(nodes)), i) && withSessions != null ==>
                  nodes[i].ManyOrErr("sessions") == Ok([])
    {
      err := None;
      if withSessions != null {
        err := LoadManyFromTable(nodes, withSessions, sessions);
      }
    }

    /**
     * sqlAll, for whatever rows the main query answers: only a failing query makes it fail, and the
     * edges of each node are as seen from the row it was read from. A repeated id has its sessions
     * at its last node only.
     */
    method SqlAll(ghost roles: seq<Row>, ghost sessions: seq<Row>) returns (r: Result<seq<Node>, LoadError>)
      requires Wired(roles, sessions)
      modifies withRole, withSessions
      ensures r.Err? ==> r.error.QueryFailed? && !NothingFails()
      ensures Answer().Err? ==> r == Err(QueryFailed(Answer().error))
      ensures r.Ok? ==> Answer().Ok? && fresh(r.value) && Distinct(r.value) && RowsOf(r.value) == Answer().value
      ensures r.Ok? ==>
                var role, session := old(AskedRole()), old(AskedSessions());
                forall i :: 0 <= i < |r.value| ==>
                  && RoleSeen(r.value[i], r.value[i].row, role.loaded, roles, role.preds, role.fields)
                  && (IsLast(Ids(RowsOf(r.value)), i) || !session.loaded ==>
                        SessionsSeen(r.value[i], r.value[i].row.id, session.loaded, sessions, session.preds, session.fields))
                  && (!IsLast(Ids(RowsOf(r.value)), i) && session.loaded ==> r.value[i].ManyOrErr("sessions") == Ok([]))
    {
      r := QueryNodes();
      if r.Err? || |r.value| == 0 {
        return;
      }
      var nodes := r.value;
      var err := LoadRole(nodes, roles);
      if err.Some? {
        return Err(err.value);
      }
      err := LoadSessions(nodes, sessions);
      if err.Some? {
        return Err(err.value);
      }
    }

    /**
     * MAIN: over the tables, and whatever any of the three queries projects, the nodes are the
     * selected users in order, and each user's role and sessions are the nested-loop joins of its
     * stored row with the roles and the sessions that the nested queries select.
     */
    method All(ghost users: seq<Row>, ghost roles: seq<Row>, ghost sessions: seq<Row>) returns (r: Result<seq<Node>, LoadError>)
      requires Wired(roles, sessions) && AnswersLimited(run, users) && DistinctIds(users)
      modifies withRole, withSessions
      ensures r.Err? ==> r.error.QueryFailed? && !NothingFails()
      ensures r.Ok? ==>
                var selected := Limited(Select(users, predicates), limit);
                && RowsOf(r.value) == Project(selected, SpecColumns(fields, withRole != null))
                && forall i :: 0 <= i < |r.value| ==>
                     Seen(r.value[i], selected[i], old(AskedRole()), roles, old(AskedSessions()), sessions)
    {
      r := SqlAll(roles, sessions);
      if r.Ok? {
        ghost var selected := Limited(Select(users, predicates), limit);
        ghost var role, session := old(AskedRole()), old(AskedSessions());
        SelectedDistinct(users, predicates);
        forall i | 0 <= i < |r.value|
          ensures Seen(r.value[i], selected[i], role, roles, session, sessions)
        {
          hide RoleSeen, SessionsSeen;
          SeenThroughProjection(selected, fields, withRole != null, i);
          SeenAlike(r.value[i], r.value[i].row, selected[i], role, roles);
        }
      }
    }

    /**
     * Only: over the tables it returns the selected user iff there is exactly one. The limit that it
     * sets stays on the query.
     */
    method Only(ghost users: seq<Row>, ghost roles: seq<Row>, ghost sessions: seq<Row>) returns (r: Result<Node, Failure>)
      requires Wired(roles, sessions) && AnswersLimited(run, users) && DistinctIds(users)
      modifies this`limit, withRole, withSessions
      ensures limit == Some(2)
      ensures var selected := Select(users, predicates);
              match r
              case Ok(n) => |selected| == 1 && Seen(n, selected[0], old(AskedRole()), roles, old(AskedSessions()), sessions)
                            && n.row == ProjectRow(selected[0], SpecColumns(fields, withRole != null))
              case Err(Loading(e)) => e.QueryFailed? && !NothingFails()
              case Err(Reporting(e)) =>
                |selected| != 1 && e == if selected == [] then NotFoundError("user") else NotSingularError("user")
    {
      limit := Some(2);
      var nodes := All(users, roles, sessions);
      if nodes.Err? {
        return Err(Loading(nodes.error));
      }
      ghost var selected := Select(users, predicates);
      assert |nodes.value| == |Limited(selected, limit)|;
      if |nodes.value| == 1 {
        assert RowsOf(nodes.value)[0] == ProjectRow(selected[0], SpecColumns(fields, withRole != null));
        return Ok(nodes.value[0]);
      } else if |nodes.value| == 0 {
        return Err(Reporting(NotFoundError("user")));
      } else {
        return Err(Reporting(NotSingularError("user")));
      }
    }

    /** First: the first selected user, or an error iff there is none; its limit stays as well. */
    method First(ghost users: seq<Row>, ghost roles: seq<Row>, ghost sessions: seq<Row>) returns (r: Result<Node, Failure>)
      requires Wired(roles, sessions) && AnswersLimited(run, users) && DistinctIds(users)
      modifies this`limit, withRole, withSessions
      ensures limit == Some(1)
      ensures var selected := Select(users, predicates);
              match r
              case Ok(n) => |selected| > 0 && Seen(n, selected[0], old(AskedRole()), roles, old(AskedSessions()), sessions)
                            && n.row == ProjectRow(selected[0], SpecColumns(fields, withRole != null))
              case Err(Loading(e)) => e.QueryFailed? && !NothingFails()
              case Err(Reporting(e)) => e == NotFoundError("user") && selected == []
    {
      limit := Some(1);
      var nodes := All(users, roles, sessions);
      if nodes.Err? {
        return Err(Loading(nodes.error));
      }
      ghost var selected := Select(users, predicates);
      assert |nodes.value| == |Limited(selected, limit)|;
      if |nodes.value| == 0 {
        return Err(Reporting(NotFoundError("user")));
      }
      assert RowsOf(nodes.value)[0] == ProjectRow(selected[0], SpecColumns(fields, withRole != null));
      return Ok(nodes.value[0]);
    }
  }

  /** What is seen of the role depends on the key of the row alone. */
  lemma SeenAlike(n: Node, row: Row, user: Row, role: Asked, roles: seq<Row>)
    requires role.loaded ==> row.fk == user.fk
    ensures RoleSeen(n, row, role.loaded, roles, role.preds, role.fields) <==>
            RoleSeen(n, user, role.loaded, roles, role.preds, role.fields)
  {
  }

  lemma {:induction false} SelectedDistinct(table: seq<Row>, preds: seq<Predicate>)
    requires DistinctIds(table)
    ensures DistinctIds(Select(table, preds))
  {
    if table != [] {
      var init, r := table[..|table| - 1], table[|table| - 1];
      SelectedDistinct(init, preds);
      forall k | 0 <= k < |Select(init, preds)| ensures Select(init, preds)[k].id != r.id {
        SelectMembers(init, preds, Select(init, preds)[k]);
        assert table[IndexOf(init, Select(init, preds)[k])].id != r.id;
      }
    }
  }

  /** A projected row keeps its id, which stays the last of its kind, and its key if the role was asked for. */
  lemma SeenThroughProjection(selected: seq<Row>, fields: seq<string>, withParent: bool, i: nat)
    requires DistinctIds(selected) && i < |selected|
    ensures var rows := Project(selected, SpecColumns(fields, withParent));
            && rows[i].id == selected[i].id && (withParent ==> rows[i].fk == selected[i].fk) && IsLast(Ids(rows), i)
  {
    ColumnsOfProjection(fields, withParent);
    LastOfDistinct(Project(selected, SpecColumns(fields, withParent)), i);
  }
}
