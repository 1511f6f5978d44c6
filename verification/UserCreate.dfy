/** Creating a user: defaults, checks, the node and the specification, and reading it back. */
module UserCreate {
  import opened Common
  import opened EdgeMutation
  import UpdateSpec
  import UM = UserMutation
  import UU = UserUpdate
  import opened UserRow

  /** Column values to insert, and edges to other tables. */
  datatype CreateSpec = CreateSpec(id: Option<string>, fields: seq<(Column, UU.FieldValue)>, edges: seq<UpdateSpec.EdgeSpec>)

  /** The schema's validators and default values. */
  datatype Schema = Schema(validUsername: string -> bool, validHash: string -> bool,
                           isRootAdmin: bool, active: bool, allowedCidrs: seq<string>)

  method Defaults(m: UM.UserMutation, schema: Schema)
    modifies m
    ensures m.isRootAdmin == Some(old(m.isRootAdmin).GetOr(schema.isRootAdmin))
    ensures m.active == Some(old(m.active).GetOr(schema.active))
    ensures m.allowedCidrs == Some(old(m.allowedCidrs).GetOr(schema.allowedCidrs))
    ensures m.appendAllowedCidrs == if old(m.allowedCidrs).None? then [] else old(m.appendAllowedCidrs)
    ensures m.id == old(m.id) && m.username == old(m.username) && m.passwordHash == old(m.passwordHash)
    ensures m.Role() == old(m.Role()) && m.done == old(m.done)
  {
    if m.isRootAdmin.None? {
      m.isRootAdmin := Some(schema.isRootAdmin);
    }
    if m.active.None? {
      m.active := Some(schema.active);
    }
    if m.allowedCidrs.None? {
      m.allowedCidrs := Some(schema.allowedCidrs);
      m.appendAllowedCidrs := [];
    }
  }

  /** The required fields, in the order in which they are checked. */
  const REQUIRED := ["username", "password_hash", "is_root_admin", "active", "allowed_cidrs"]

  /** A required field is there and, if it is validated, valid. */
  predicate FieldOk(m: UM.UserMutation, schema: Schema, name: string)
    reads m
  {
    && (name == "username" ==> m.username.Some? && schema.validUsername(m.username.value))
    && (name == "password_hash" ==> m.passwordHash.Some? && schema.validHash(m.passwordHash.value))
    && (name == "is_root_admin" ==> m.isRootAdmin.Some?)
    && (name == "active" ==> m.active.Some?)
    && (name == "allowed_cidrs" ==> m.allowedCidrs.Some?)
  }

  /** Everything required is there and valid. */
  predicate Passes(m: UM.UserMutation, schema: Schema)
    reads m
  {
    && m.username.Some? && schema.validUsername(m.username.value)
    && m.passwordHash.Some? && schema.validHash(m.passwordHash.value)
    && m.isRootAdmin.Some? && m.active.Some? && m.allowedCidrs.Some?
  }

  /** The error names the first required field that is missing or invalid. */
  method Check(m: UM.UserMutation, schema: Schema) returns (err: Option<EntError>)
    ensures err.None? <==> Passes(m, schema)
    ensures err.Some? ==> exists k :: 0 <= k < |REQUIRED| && err.value == ValidationError(REQUIRED[k])
                                      && !FieldOk(m, schema, REQUIRED[k])
                                      && forall j :: 0 <= j < k ==> FieldOk(m, schema, REQUIRED[j])
  {
    ghost var names := REQUIRED;
    assert names[0] == "username" && names[1] == "password_hash" && names[2] == "is_root_admin" && names[3] == "active"
           && names[4] == "allowed_cidrs";
    if m.username.None? {
      return Some(ValidationError("username"));
    }
    if !schema.validUsername(m.username.value) {
      return Some(ValidationError("username"));
    }
    if m.passwordHash.None? {
      return Some(ValidationError("password_hash"));
    }
    if !schema.validHash(m.passwordHash.value) {
      return Some(ValidationError("password_hash"));
    }
    if m.isRootAdmin.None? {
      return Some(ValidationError("is_root_admin"));
    }
    if m.active.None? {
      return Some(ValidationError("active"));
    }
    if m.allowedCidrs.None? {
      return Some(ValidationError("allowed_cidrs"));
    }
    return None;
  }

  // ---- The stored row, and scanning it ----

  type Encoder = seq<string> -> Json

  /** JSON decoding undoes encoding, and an encoding is never empty. */
  ghost predicate Codec(encode: Encoder, decode: Decoder) {
    forall list :: encode(list) != [] && decode(encode(list)) == Some(list)
  }

  function Stored(v: UU.FieldValue, encode: Encoder): DbValue {
    match v
    case Text(s) => Text(s)
    case Flag(b) => Bool(b)
    case Json(list) => JsonText(encode(list))
  }

  /** The inserted row: columns that the specification does not mention are NULL. */
  function RowOf(spec: CreateSpec, encode: Encoder): map<Column, DbValue> {
    var row := FieldRow(spec.fields, encode);
    var withId := if spec.id.Some? then row[ID := Text(spec.id.value)] else row;
    EdgeRow(withId, spec.edges)
  }

  function FieldRow(fields: seq<(Column, UU.FieldValue)>, encode: Encoder): map<Column, DbValue> {
    if fields == [] then map[]
    else FieldRow(fields[..|fields| - 1], encode)[fields[|fields| - 1].0 := Stored(fields[|fields| - 1].1, encode)]
  }

  /** The many-to-one edges are columns of the row itself. */
  function EdgeRow(row: map<Column, DbValue>, edges: seq<UpdateSpec.EdgeSpec>): map<Column, DbValue>
    decreases |edges|
  {
    if edges == [] then row
    else
      var e := edges[0];
      EdgeRow(if e.rel.M2O? && e.column == "role_id" && e.nodes != [] && e.nodes[0].Str? then row[RoleID := Text(e.nodes[0].s)] else row,
              edges[1..])
  }

  /** A holder of the column's kind, filled from the row. */
  function Scanned(column: Column, row: map<Column, DbValue>): (h: Holder)
    ensures HasKind(h, KindOf(column))
  {
    var v := if column in row then row[column] else Null;
    match KindOf(column)
    case StringKind => if v.Text? then NullString(true, v.s) else NullString(false, "")
    case BoolKind => if v.Bool? then NullBool(true, v.b) else NullBool(false, false)
    case BytesKind => if v.JsonText? then RawBytes(v.raw) else RawBytes([])
    case UnknownKind => UnknownType(v)
  }

  function ScanAll(columns: seq<Column>, row: map<Column, DbValue>): (values: seq<Holder>)
    ensures |values| == |columns|
    ensures forall k :: 0 <= k < |columns| ==> values[k] == Scanned(columns[k], row)
  {
    seq(|columns|, k requires 0 <= k < |columns| => Scanned(columns[k], row))
  }

  /**
   * MAIN: for every list of columns, with repeats and unknown names, and every row whose stored list
   * decodes, assigning what was scanned into holders of the allocated kinds never fails.
   */
  lemma ScannedNeverFails(columns: seq<Column>, row: map<Column, DbValue>, decode: Decoder)
    requires AllowedCidrs in row && row[AllowedCidrs].JsonText? && row[AllowedCidrs].raw != [] ==> decode(row[AllowedCidrs].raw).Some?
    ensures FirstBad(columns, ScanAll(columns, row), decode) == |columns|
  {
    var values := ScanAll(columns, row);
    forall k | 0 <= k < |columns| ensures !Bad(columns[k], values[k], decode) {
      assert HasKind(values[k], KindOf(columns[k]));
    }
  }

  /** Over one row a column always scans the same, so repeats do not matter. */
  lemma {:induction false} LastOverRow(columns: seq<Column>, row: map<Column, DbValue>, column: Column)
    ensures LastCarrying(columns, ScanAll(columns, row), column) ==
            if column in columns && CarriesValue(Scanned(column, row)) then Some(Scanned(column, row)) else None
  {
    if columns != [] {
      var n := |columns| - 1;
      assert columns == columns[..n] + [columns[n]];
      LastOverRow(columns[..n], row, column);
      SamePrefix(columns, ScanAll(columns, row), ScanAll(columns[..n], row), n, column);
    }
  }

  lemma {:induction false} SamePrefix(columns: seq<Column>, a: seq<Holder>, b: seq<Holder>, n: nat, column: Column)
    requires n <= |columns| && n <= |a| && n <= |b| && forall k :: 0 <= k < n ==> a[k] == b[k]
    ensures LastCarrying(columns[..n], a, column) == LastCarrying(columns[..n], b, column)
  {
    if n > 0 {
      assert columns[..n][..n - 1] == columns[..n - 1];
      SamePrefix(columns, a, b, n - 1, column);
    }
  }

  // ---- createSpec ----

  /** SetField, if there is something to set. */
  function Add(fields: seq<(Column, UU.FieldValue)>, c: Column, v: Option<UU.FieldValue>): seq<(Column, UU.FieldValue)> {
    if v.Some? then fields + [(c, v.value)] else fields
  }

  function FieldsOf(username: Option<string>, hash: Option<string>, root: Option<bool>, active: Option<bool>, cidrs: Option<seq<string>>)
    : seq<(Column, UU.FieldValue)>
  {
    Add(Add(Add(Add(Add([], Username, UU.AsText(username)), PasswordHash, UU.AsText(hash)), IsRootAdmin, UU.AsFlag(root)),
            Active, UU.AsFlag(active)), AllowedCidrs, UU.AsJson(cidrs))
  }

  /** The edges of the specification: the role first, then the sessions, each only if set. */
  ghost predicate EdgesFor(edges: seq<UpdateSpec.EdgeSpec>, role: Option<string>, sessions: set<UpdateSpec.NodeID>) {
    var n := if role.Some? then 1 else 0;
    && |edges| == n + (if sessions == {} then 0 else 1)
    && (role.Some? ==> edges[0] == UU.ROLE.(nodes := [UpdateSpec.Str(role.value)]))
    && (sessions != {} ==> edges[n] == UU.SESSIONS.(nodes := edges[n].nodes) && ToSet(edges[n].nodes) == sessions)
  }

  method EdgesOf(m: UM.UserMutation) returns (edges: seq<UpdateSpec.EdgeSpec>, roleID: Option<string>)
    ensures EdgesFor(edges, m.role, Pending(m.sessions.Change()))
    ensures roleID == m.role
  {
    edges, roleID := [], None;
    var roles := m.RoleIDs();
    if |roles| > 0 {
      var nodes := [];
      for k := 0 to |roles|
        invariant |nodes| == k && forall l :: 0 <= l < k ==> nodes[l] == UpdateSpec.Str(roles[l])
      {
        nodes := nodes + [UpdateSpec.Str(roles[k])];
      }
      assert nodes == [UpdateSpec.Str(m.role.value)];
      roleID := Some(roles[0]);
      edges := edges + [UU.ROLE.(nodes := nodes)];
    }
    var sessions := m.sessions.IDs();
    if |sessions| > 0 {
      edges := edges + [UU.SESSIONS.(nodes := sessions)];
    }
  }

  /** The id and the two strings. */
  method StringPart(m: UM.UserMutation) returns (node: Value, fields: seq<(Column, UU.FieldValue)>)
    ensures fields == Add(Add([], Username, UU.AsText(m.username)), PasswordHash, UU.AsText(m.passwordHash))
    ensures node == ZERO_VALUE.(id := m.id.GetOr(""), username := m.username.GetOr(""), passwordHash := m.passwordHash.GetOr(""))
  {
    node := ZERO_VALUE;
    fields := [];
    if m.id.Some? {
      node := node.(id := m.id.value);
    }
    if m.username.Some? {
      fields := fields + [(Username, UU.Text(m.username.value))];
      node := node.(username := m.username.value);
    }
    assert fields == Add([], Username, UU.AsText(m.username));
    ghost var f := fields;
    if m.passwordHash.Some? {
      fields := fields + [(PasswordHash, UU.Text(m.passwordHash.value))];
      node := node.(passwordHash := m.passwordHash.value);
    }
    assert fields == Add(f, PasswordHash, UU.AsText(m.passwordHash));
  }

  /** The two flags and the list. */
  method OtherPart(m: UM.UserMutation, start: Value, before: seq<(Column, UU.FieldValue)>)
    returns (node: Value, fields: seq<(Column, UU.FieldValue)>)
    requires !start.isRootAdmin && !start.active && start.allowedCidrs == []
    ensures fields == Add(Add(Add(before, IsRootAdmin, UU.AsFlag(m.isRootAdmin)), Active, UU.AsFlag(m.active)),
                          AllowedCidrs, UU.AsJson(m.allowedCidrs))
    ensures node == start.(isRootAdmin := m.isRootAdmin.GetOr(false), active := m.active.GetOr(false),
                           allowedCidrs := m.allowedCidrs.GetOr([]))
  {
    node, fields := start, before;
    if m.isRootAdmin.Some? {
      fields := fields + [(IsRootAdmin, UU.Flag(m.isRootAdmin.value))];
      node := node.(isRootAdmin := m.isRootAdmin.value);
    }
    assert fields == Add(before, IsRootAdmin, UU.AsFlag(m.isRootAdmin));
    ghost var f := fields;
    if m.active.Some? {
      fields := fields + [(Active, UU.Flag(m.active.value))];
      node := node.(active := m.active.value);
    }
    assert fields == Add(f, Active, UU.AsFlag(m.active));
    f := fields;
    if m.allowedCidrs.Some? {
      fields := fields + [(AllowedCidrs, UU.Json(m.allowedCidrs.value))];
      node := node.(allowedCidrs := m.allowedCidrs.value);
    }
    assert fields == Add(f, AllowedCidrs, UU.AsJson(m.allowedCidrs));
  }

  method CreateSpecOf(m: UM.UserMutation) returns (node: Value, spec: CreateSpec)
    ensures spec.id == m.id
    ensures spec.fields == FieldsOf(m.username, m.passwordHash, m.isRootAdmin, m.active, m.allowedCidrs)
    ensures EdgesFor(spec.edges, m.role, Pending(m.sessions.Change()))
    ensures node == Value(m.id.GetOr(""), m.username.GetOr(""), m.passwordHash.GetOr(""), m.isRootAdmin.GetOr(false),
                          m.active.GetOr(false), m.role, m.allowedCidrs.GetOr([]))
  {
    var strings, stringFields := StringPart(m);
    var fields;
    node, fields := OtherPart(m, strings, stringFields);
    var edges, roleID := EdgesOf(m);
    node := node.(roleID := roleID);
    spec := CreateSpec(m.id, fields, edges);
  }

  /**
   * sqlSave. `create` is the database's answer: the id it generates, should the specification have
   * none, or an error.
   */
  method SqlSave(m: UM.UserMutation, schema: Schema, create: CreateSpec -> Result<string, SqlError>)
    returns (r: Result<Value, EntError>, sent: Option<CreateSpec>)
    modifies m`id, m`done
    ensures sent.Some? <==> Passes(m, schema)
    ensures sent.Some? ==> sent.value.id == old(m.id) && EdgesFor(sent.value.edges, m.role, Pending(m.sessions.Change()))
    ensures sent.None? ==> r.Err? && r.error.ValidationError? && m.id == old(m.id) && m.done == old(m.done)
    ensures sent.Some? && create(sent.value).Err? ==>
              r == Err(ReportedInsert(create(sent.value).error)) && m.id == old(m.id) && m.done == old(m.done)
    ensures forall msg :: sent.Some? && create(sent.value) == Err(Constraint(msg)) ==> r == Err(ConstraintError(msg))
    ensures forall msg :: sent.Some? && create(sent.value) == Err(SqlError.Other(msg)) ==> r == Err(Plain(msg))
    ensures sent.Some? && create(sent.value).Ok? ==>
              && r.Ok? && m.done && m.id == Some(r.value.id)
              && r.value == Value(old(m.id).GetOr(create(sent.value).value), m.username.value, m.passwordHash.value,
                                  m.isRootAdmin.value, m.active.value, m.role, m.allowedCidrs.value)
              && forall encode, decode :: Codec(encode, decode) ==>
                   ReadBack(sent.value.(id := m.id), encode, decode) == r.value
  {
    var err := Check(m, schema);
    if err.Some? {
      return Err(err.value), None;
    }
    var node, spec := CreateSpecOf(m);
    sent := Some(spec);
    match create(spec) {
      case Err(e) => r := Err(ReportedInsert(e));
      case Ok(generated) =>
        var stored := spec.(id := Some(spec.id.GetOr(generated)));
        node := node.(id := stored.id.value);
        forall encode, decode | Codec(encode, decode) ensures ReadBack(stored, encode, decode) == node {
          CreateThenRead(m.username.value, m.passwordHash.value, m.isRootAdmin.value, m.active.value, m.allowedCidrs.value,
                         m.role, Pending(m.sessions.Change()), stored, encode, decode);
        }
        m.id := Some(node.id);
        m.done := true;
        r := Ok(node);
    }
  }

  /** The node that a later query of all columns builds from the inserted row. */
  function ReadBack(spec: CreateSpec, encode: Encoder, decode: Decoder): Value {
    var values := ScanAll(COLUMNS, RowOf(spec, encode));
    ReadOff(COLUMNS, values, decode, ZERO_VALUE)
  }

  /**
   * MAIN: reading the inserted row back gives, field by field, what was set: the role edge as the
   * role id, and nil when there is none.
   */
  lemma CreateThenRead(username: string, hash: string, root: bool, active: bool, cidrs: seq<string>, role: Option<string>,
                       sessions: set<UpdateSpec.NodeID>, spec: CreateSpec, encode: Encoder, decode: Decoder)
    requires Codec(encode, decode) && spec.id.Some?
    requires spec.fields == FieldsOf(Some(username), Some(hash), Some(root), Some(active), Some(cidrs))
    requires EdgesFor(spec.edges, role, sessions)
    ensures ReadBack(spec, encode, decode) == Value(spec.id.value, username, hash, root, active, role, cidrs)
    ensures FirstBad(COLUMNS, ScanAll(COLUMNS, RowOf(spec, encode)), decode) == |COLUMNS|
  {
    InsertedRow(username, hash, root, active, cidrs, role, sessions, spec, encode);
    RowReads(spec.id.value, username, hash, root, active, cidrs, role, encode, decode);
  }

  /** The row of a created user. */
  function UserRowOf(id: string, username: string, hash: string, root: bool, active: bool, raw: Json, role: Option<string>)
    : map<Column, DbValue>
  {
    var row := map[ID := Text(id), Username := Text(username), PasswordHash := Text(hash), IsRootAdmin := Bool(root),
                   Active := Bool(active), AllowedCidrs := JsonText(raw)];
    if role.Some? then row[RoleID := Text(role.value)] else row
  }

  lemma InsertedRow(username: string, hash: string, root: bool, active: bool, cidrs: seq<string>, role: Option<string>,
                    sessions: set<UpdateSpec.NodeID>, spec: CreateSpec, encode: Encoder)
    requires spec.id.Some?
    requires spec.fields == FieldsOf(Some(username), Some(hash), Some(root), Some(active), Some(cidrs))
    requires EdgesFor(spec.edges, role, sessions)
    ensures RowOf(spec, encode) == UserRowOf(spec.id.value, username, hash, root, active, encode(cidrs), role)
  {
    FullFieldRow(username, hash, root, active, cidrs, encode);
    RoleInRow(FieldRow(spec.fields, encode)[ID := Text(spec.id.value)], spec.edges, role, sessions);
    hide FieldRow, FieldsOf, EdgeRow, EdgesFor;
  }

  /** Of the edges, only the role shows in the row. */
  lemma RoleInRow(row: map<Column, DbValue>, edges: seq<UpdateSpec.EdgeSpec>, role: Option<string>, sessions: set<UpdateSpec.NodeID>)
    requires EdgesFor(edges, role, sessions)
    ensures EdgeRow(row, edges) == if role.Some? then row[RoleID := Text(role.value)] else row
  {
    if role.Some? {
      OtherEdges(row[RoleID := Text(role.value)], edges[1..]);
    } else {
      OtherEdges(row, edges);
    }
  }

  lemma AllColumns()
    ensures ID in COLUMNS && Username in COLUMNS && PasswordHash in COLUMNS && IsRootAdmin in COLUMNS && Active in COLUMNS
            && RoleID in COLUMNS && AllowedCidrs in COLUMNS
  {
    assert COLUMNS[0] == ID && COLUMNS[1] == Username && COLUMNS[2] == PasswordHash && COLUMNS[3] == IsRootAdmin
           && COLUMNS[4] == Active && COLUMNS[5] == RoleID && COLUMNS[6] == AllowedCidrs;
  }

  lemma RowReads(id: string, username: string, hash: string, root: bool, active: bool, cidrs: seq<string>, role: Option<string>,
                 encode: Encoder, decode: Decoder)
    requires Codec(encode, decode)
    ensures var values := ScanAll(COLUMNS, UserRowOf(id, username, hash, root, active, encode(cidrs), role));
            && ReadOff(COLUMNS, values, decode, ZERO_VALUE) == Value(id, username, hash, root, active, role, cidrs)
            && FirstBad(COLUMNS, values, decode) == |COLUMNS|
  {
    var row := UserRowOf(id, username, hash, root, active, encode(cidrs), role);
    assert encode(cidrs) != [] && decode(encode(cidrs)) == Some(cidrs);
    ScannedUser(id, username, hash, root, active, encode(cidrs), role);
    ScannedNeverFails(COLUMNS, row, decode) by {
      assert row[AllowedCidrs] == JsonText(encode(cidrs));
    }
    AllColumns();
    hide LastCarrying, FirstBad, ScanAll, Scanned, UserRowOf, Codec;
    LastOverRow(COLUMNS, row, ID);
    LastOverRow(COLUMNS, row, Username);
    LastOverRow(COLUMNS, row, PasswordHash);
    LastOverRow(COLUMNS, row, IsRootAdmin);
    LastOverRow(COLUMNS, row, Active);
    LastOverRow(COLUMNS, row, RoleID);
    LastOverRow(COLUMNS, row, AllowedCidrs);
  }

  // ---- Creating, then updating ----

  /** The name under which an update writes a column. */
  function NameOf(column: Column): string {
    match column
    case ID => "id"
    case Username => "username"
    case PasswordHash => "password_hash"
    case IsRootAdmin => "is_root_admin"
    case Active => "active"
    case RoleID => "role_id"
    case AllowedCidrs => "allowed_cidrs"
    case Other(name) => name
  }

  /** The stored row once an update has written the named columns over it. */
  function Overlay(row: map<Column, DbValue>, written: map<string, UU.FieldValue>, encode: Encoder): map<Column, DbValue> {
    map c | c in row.Keys + ToSet(COLUMNS) && (c in row || NameOf(c) in written) ::
      if NameOf(c) in written then Stored(written[NameOf(c)], encode) else row[c]
  }

  function WithRole(row: map<Column, DbValue>, role: Option<string>): map<Column, DbValue> {
    if role.Some? then row[RoleID := Text(role.value)] else row - {RoleID}
  }

  /**
   * MAIN: create, then update, then read. The node read back from the inserted row, once an update
   * has written its scalars and its role over it, has exactly the fields that the update sets
   * changed to what it sets, and all others as they were created.
   */
  lemma CreateThenUpdate(created: Value, sessions: set<UpdateSpec.NodeID>, spec: CreateSpec,
                         username: Option<string>, hash: Option<string>, active: Option<bool>, cidrs: Option<seq<string>>,
                         fields: seq<(string, UU.FieldValue)>, role: UM.RoleChange, encode: Encoder, decode: Decoder)
    requires Codec(encode, decode) && spec.id == Some(created.id)
    requires spec.fields == FieldsOf(Some(created.username), Some(created.passwordHash), Some(created.isRootAdmin),
                                     Some(created.active), Some(created.allowedCidrs))
    requires EdgesFor(spec.edges, created.roleID, sessions)
    requires UU.ScalarsWritten(map[], UU.WriteFields(map[], fields), username, hash, active, cidrs)
    ensures var row := WithRole(Overlay(RowOf(spec, encode), UU.WriteFields(map[], fields), encode), role.Written(created.roleID));
            && ReadOff(COLUMNS, ScanAll(COLUMNS, row), decode, ZERO_VALUE) ==
               Value(created.id, username.GetOr(created.username), hash.GetOr(created.passwordHash), created.isRootAdmin,
                     active.GetOr(created.active), role.Written(created.roleID), cidrs.GetOr(created.allowedCidrs))
            && FirstBad(COLUMNS, ScanAll(COLUMNS, row), decode) == |COLUMNS|
  {
    InsertedRow(created.username, created.passwordHash, created.isRootAdmin, created.active, created.allowedCidrs,
                created.roleID, sessions, spec, encode);
    OverlaidRow(created, username, hash, active, cidrs, UU.WriteFields(map[], fields), encode);
    RoleOfRow(created.id, username.GetOr(created.username), hash.GetOr(created.passwordHash), created.isRootAdmin,
              active.GetOr(created.active), encode(cidrs.GetOr(created.allowedCidrs)), created.roleID, role.Written(created.roleID));
    RowReads(created.id, username.GetOr(created.username), hash.GetOr(created.passwordHash), created.isRootAdmin,
             active.GetOr(created.active), cidrs.GetOr(created.allowedCidrs), role.Written(created.roleID), encode, decode);
    hide *;
  }

  lemma RoleOfRow(id: string, username: string, hash: string, root: bool, active: bool, raw: Json,
                  before: Option<string>, after: Option<string>)
    ensures WithRole(UserRowOf(id, username, hash, root, active, raw, before), after) ==
            UserRowOf(id, username, hash, root, active, raw, after)
  {
  }

  /** Only the four names of updatable columns can be written, each to its own column. */
  lemma OverlaidRow(created: Value, username: Option<string>, hash: Option<string>, active: Option<bool>, cidrs: Option<seq<string>>,
                    written: map<string, UU.FieldValue>, encode: Encoder)
    requires UU.ScalarsWritten(map[], written, username, hash, active, cidrs)
    ensures Overlay(UserRowOf(created.id, created.username, created.passwordHash, created.isRootAdmin, created.active,
                              encode(created.allowedCidrs), created.roleID), written, encode) ==
            UserRowOf(created.id, username.GetOr(created.username), hash.GetOr(created.passwordHash), created.isRootAdmin,
                      active.GetOr(created.active), encode(cidrs.GetOr(created.allowedCidrs)), created.roleID)
  {
    hide Overlay, UserRowOf, NameOf, Stored, UU.ScalarsWritten, UU.Kept;
    var before := UserRowOf(created.id, created.username, created.passwordHash, created.isRootAdmin, created.active,
                            encode(created.allowedCidrs), created.roleID);
    var after := UserRowOf(created.id, username.GetOr(created.username), hash.GetOr(created.passwordHash), created.isRootAdmin,
                           active.GetOr(created.active), encode(cidrs.GetOr(created.allowedCidrs)), created.roleID);
    var overlaid := Overlay(before, written, encode);
    forall c ensures (c in overlaid <==> c in after) && (c in after ==> overlaid[c] == after[c]) {
      OverlaidColumn(created, username, hash, active, cidrs, written, encode, c);
    }
    assert overlaid == after;
  }

  function CellOf(id: string, username: string, hash: string, root: bool, active: bool, raw: Json, role: Option<string>, c: Column)
    : Option<DbValue>
  {
    match c
    case ID => Some(Text(id))
    case Username => Some(Text(username))
    case PasswordHash => Some(Text(hash))
    case IsRootAdmin => Some(Bool(root))
    case Active => Some(Bool(active))
    case RoleID => if role.Some? then Some(Text(role.value)) else None
    case AllowedCidrs => Some(JsonText(raw))
    case Other(_) => None
  }

  lemma UserRowCell(id: string, username: string, hash: string, root: bool, active: bool, raw: Json, role: Option<string>, c: Column)
    ensures var row := UserRowOf(id, username, hash, root, active, raw, role);
            var cell := CellOf(id, username, hash, root, active, raw, role, c);
            (c in row <==> cell.Some?) && (c in row ==> row[c] == cell.value)
  {
  }

  lemma OverlaidColumn(created: Value, username: Option<string>, hash: Option<string>, active: Option<bool>,
                       cidrs: Option<seq<string>>, written: map<string, UU.FieldValue>, encode: Encoder, c: Column)
    requires UU.ScalarsWritten(map[], written, username, hash, active, cidrs)
    ensures var before := UserRowOf(created.id, created.username, created.passwordHash, created.isRootAdmin, created.active,
                                    encode(created.allowedCidrs), created.roleID);
            var after := UserRowOf(created.id, username.GetOr(created.username), hash.GetOr(created.passwordHash),
                                   created.isRootAdmin, active.GetOr(created.active),
                                   encode(cidrs.GetOr(created.allowedCidrs)), created.roleID);
            var overlaid := Overlay(before, written, encode);
            (c in overlaid <==> c in after) && (c in after ==> overlaid[c] == after[c])
  {
    hide Overlay, UserRowOf, UU.ScalarsWritten, UU.Kept;
    NotWritten(written, username, hash, active, cidrs);
    InOverlay(UserRowOf(created.id, created.username, created.passwordHash, created.isRootAdmin, created.active,
                        encode(created.allowedCidrs), created.roleID), written, encode, c);
    AllColumns();
    UserRowCell(created.id, created.username, created.passwordHash, created.isRootAdmin, created.active,
                encode(created.allowedCidrs), created.roleID, c);
    UserRowCell(created.id, username.GetOr(created.username), hash.GetOr(created.passwordHash), created.isRootAdmin,
                active.GetOr(created.active), encode(cidrs.GetOr(created.allowedCidrs)), created.roleID, c);
  }

  lemma InOverlay(row: map<Column, DbValue>, written: map<string, UU.FieldValue>, encode: Encoder, c: Column)
    ensures c in Overlay(row, written, encode) <==> c in row || (c in COLUMNS && NameOf(c) in written)
    ensures c in Overlay(row, written, encode) ==>
              Overlay(row, written, encode)[c] == if NameOf(c) in written then Stored(written[NameOf(c)], encode) else row[c]
  {
  }

  /** Over an empty row: which columns are written, and with what. */
  lemma NotWritten(written: map<string, UU.FieldValue>, username: Option<string>, hash: Option<string>, active: Option<bool>,
                   cidrs: Option<seq<string>>)
    requires UU.ScalarsWritten(map[], written, username, hash, active, cidrs)
    ensures "id" !in written && "is_root_admin" !in written && "role_id" !in written
    ensures if username.Some? then "username" in written && written["username"] == UU.Text(username.value) else "username" !in written
    ensures if hash.Some? then "password_hash" in written && written["password_hash"] == UU.Text(hash.value)
            else "password_hash" !in written
    ensures if active.Some? then "active" in written && written["active"] == UU.Flag(active.value) else "active" !in written
    ensures if cidrs.Some? then "allowed_cidrs" in written && written["allowed_cidrs"] == UU.Json(cidrs.value)
            else "allowed_cidrs" !in written
  {
    assert UU.Kept(map[], written, "id") && UU.Kept(map[], written, "is_root_admin") && UU.Kept(map[], written, "role_id");
  }

  lemma ScannedUser(id: string, username: string, hash: string, root: bool, active: bool, raw: Json, role: Option<string>)
    ensures var row := UserRowOf(id, username, hash, root, active, raw, role);
            && Scanned(ID, row) == NullString(true, id)
            && Scanned(Username, row) == NullString(true, username)
            && Scanned(PasswordHash, row) == NullString(true, hash)
            && Scanned(IsRootAdmin, row) == NullBool(true, root)
            && Scanned(Active, row) == NullBool(true, active)
            && Scanned(RoleID, row) == (if role.Some? then NullString(true, role.value) else NullString(false, ""))
            && Scanned(AllowedCidrs, row) == RawBytes(raw)
  {
  }

  lemma FieldRowSnoc(fields: seq<(Column, UU.FieldValue)>, c: Column, v: UU.FieldValue, encode: Encoder)
    ensures FieldRow(fields + [(c, v)], encode) == FieldRow(fields, encode)[c := Stored(v, encode)]
  {
    assert (fields + [(c, v)])[..|fields|] == fields;
  }

  lemma FullFieldRow(username: string, hash: string, root: bool, active: bool, cidrs: seq<string>, encode: Encoder)
    ensures FieldRow(FieldsOf(Some(username), Some(hash), Some(root), Some(active), Some(cidrs)), encode) ==
            map[Username := Text(username), PasswordHash := Text(hash), IsRootAdmin := Bool(root),
                Active := Bool(active), AllowedCidrs := JsonText(encode(cidrs))]
  {
    var f1 := [] + [(Username, UU.Text(username))];
    var f2 := f1 + [(PasswordHash, UU.Text(hash))];
    var f3 := f2 + [(IsRootAdmin, UU.Flag(root))];
    var f4 := f3 + [(Active, UU.Flag(active))];
    FieldRowSnoc([], Username, UU.Text(username), encode);
    FieldRowSnoc(f1, PasswordHash, UU.Text(hash), encode);
    FieldRowSnoc(f2, IsRootAdmin, UU.Flag(root), encode);
    FieldRowSnoc(f3, Active, UU.Flag(active), encode);
    FieldRowSnoc(f4, AllowedCidrs, UU.Json(cidrs), encode);
  }

  /** To-many edges leave the row alone. */
  lemma {:induction false} OtherEdges(row: map<Column, DbValue>, edges: seq<UpdateSpec.EdgeSpec>)
    requires forall k :: 0 <= k < |edges| ==> edges[k].rel.O2M?
    ensures EdgeRow(row, edges) == row
  {
    if edges != [] {
      OtherEdges(row, edges[1..]);
    }
  }
}
