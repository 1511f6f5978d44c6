/**
 * The user mutation, above all its role: a nullable field and a unique edge that share
 * one pointer but keep their "cleared" marks in two places.
 */
module UserMutation {
  import opened Common
  import opened EdgeMutation
  import opened UpdateSpec

  const FIELD_ROLE_ID := "role_id"

  /** What the mutation remembers about the role. */
  datatype RoleChange = RoleChange(role: Option<string>, fieldCleared: bool, edgeCleared: bool)
  {
    /** RoleCleared: the mark of the field or the mark of the edge. */
    predicate Cleared() {
      fieldCleared || edgeCleared
    }

    /** What the emitted update writes, the clear being applied before the set. */
    function Written(old_: Option<string>): Option<string> {
      if role.Some? then role else if Cleared() then None else old_
    }
  }

  const NO_ROLE_CHANGE := RoleChange(None, false, false)

  datatype RoleCall = SetRoleID(v: string) | ClearRoleID | ResetRoleID | ClearRole | ResetRole

  function RoleStep(c: RoleChange, call: RoleCall): RoleChange {
    match call
    case SetRoleID(v) => c.(role := Some(v))
    case ClearRoleID => c.(role := None, fieldCleared := true)
    case ResetRoleID => c.(role := None, fieldCleared := false)
    case ClearRole => c.(fieldCleared := true, edgeCleared := true)
    case ResetRole => c.(role := None, edgeCleared := false)
  }

  function RoleRun(calls: seq<RoleCall>): RoleChange {
    if calls == [] then NO_ROLE_CHANGE else RoleStep(RoleRun(calls[..|calls| - 1]), calls[|calls| - 1])
  }

  /** The calls read one after another: a set writes, a clear nulls, a reset goes back. */
  function RoleSequential(calls: seq<RoleCall>, old_: Option<string>): Option<string> {
    if calls == [] then old_
    else
      match calls[|calls| - 1]
      case SetRoleID(v) => Some(v)
      case ClearRoleID => None
      case ClearRole => None
      case ResetRoleID => old_
      case ResetRole => old_
  }

  /** Call number i satisfies p and no later call satisfies stop. */
  ghost predicate LastAt(calls: seq<RoleCall>, i: nat, p: RoleCall -> bool, stop: RoleCall -> bool) {
    i < |calls| && p(calls[i]) && forall j :: i < j < |calls| ==> !stop(calls[j])
  }

  ghost predicate Since(calls: seq<RoleCall>, p: RoleCall -> bool, stop: RoleCall -> bool) {
    exists i: nat :: LastAt(calls, i, p, stop)
  }

  /** One more call: either it does the job itself, or it does not undo an earlier one. */
  lemma SinceSnoc(calls: seq<RoleCall>, p: RoleCall -> bool, stop: RoleCall -> bool)
    requires calls != []
    ensures Since(calls, p, stop) <==>
            p(calls[|calls| - 1]) || (!stop(calls[|calls| - 1]) && Since(calls[..|calls| - 1], p, stop))
  {
    var n := |calls| - 1;
    if p(calls[n]) {
      assert LastAt(calls, n, p, stop);
    }
    if !stop(calls[n]) && Since(calls[..n], p, stop) {
      var i: nat :| LastAt(calls[..n], i, p, stop);
      assert LastAt(calls, i, p, stop);
    }
    if Since(calls, p, stop) && !p(calls[n]) {
      var i: nat :| LastAt(calls, i, p, stop);
      assert LastAt(calls[..n], i, p, stop);
    }
  }

  ghost predicate SetSinceDropped(calls: seq<RoleCall>, v: string) {
    Since(calls, (c: RoleCall) => c == SetRoleID(v), (c: RoleCall) => !c.ClearRole?)
  }

  /**
   * MAIN: what every run of role calls leaves behind. The role is the one given by the last
   * call other than ClearRole, if that call is a SetRoleID; the role counts as cleared iff
   * there was a clear of either kind since the last ResetRoleID, or a ClearRole since the
   * last ResetRole.
   */
  lemma {:induction false} RoleRunMeaning(calls: seq<RoleCall>)
    ensures forall v :: RoleRun(calls).role == Some(v) <==> SetSinceDropped(calls, v)
    ensures RoleRun(calls).Cleared() <==>
            || Since(calls, (c: RoleCall) => c.ClearRole? || c.ClearRoleID?, (c: RoleCall) => c.ResetRoleID?)
            || Since(calls, (c: RoleCall) => c.ClearRole?, (c: RoleCall) => c.ResetRole?)
  {
    FieldMark(calls);
    EdgeMark(calls);
    forall v ensures RoleRun(calls).role == Some(v) <==> SetSinceDropped(calls, v) {
      RolePointer(calls, v);
    }
  }

  lemma {:induction false} RolePointer(calls: seq<RoleCall>, v: string)
    ensures RoleRun(calls).role == Some(v) <==> SetSinceDropped(calls, v)
  {
    if calls != [] {
      RolePointer(calls[..|calls| - 1], v);
      SinceSnoc(calls, (c: RoleCall) => c == SetRoleID(v), (c: RoleCall) => !c.ClearRole?);
    }
  }

  lemma {:induction false} FieldMark(calls: seq<RoleCall>)
    ensures RoleRun(calls).fieldCleared <==>
            Since(calls, (c: RoleCall) => c.ClearRole? || c.ClearRoleID?, (c: RoleCall) => c.ResetRoleID?)
  {
    if calls != [] {
      FieldMark(calls[..|calls| - 1]);
      SinceSnoc(calls, (c: RoleCall) => c.ClearRole? || c.ClearRoleID?, (c: RoleCall) => c.ResetRoleID?);
    }
  }

  lemma {:induction false} EdgeMark(calls: seq<RoleCall>)
    ensures RoleRun(calls).edgeCleared <==> Since(calls, (c: RoleCall) => c.ClearRole?, (c: RoleCall) => c.ResetRole?)
  {
    if calls != [] {
      EdgeMark(calls[..|calls| - 1]);
      SinceSnoc(calls, (c: RoleCall) => c.ClearRole?, (c: RoleCall) => c.ResetRole?);
    }
  }

  /** A role is set by calls. */
  ghost predicate RoleSet(calls: seq<RoleCall>) {
    exists v :: SetSinceDropped(calls, v)
  }

  /** ClearRole was called since the last ResetRole. */
  ghost predicate EdgeClearStands(calls: seq<RoleCall>) {
    Since(calls, (c: RoleCall) => c.ClearRole?, (c: RoleCall) => c.ResetRole?)
  }

  /** ClearRole or ClearRoleID was called since the last ResetRoleID. */
  ghost predicate FieldClearStands(calls: seq<RoleCall>) {
    Since(calls, (c: RoleCall) => c.ClearRole? || c.ClearRoleID?, (c: RoleCall) => c.ResetRoleID?)
  }

  /**
   * The calls that are not written as read: a last ClearRole with a role set before it, and a last
   * reset of one kind, over a stored role, with a clear of the other kind still standing.
   */
  ghost predicate Misread(calls: seq<RoleCall>, old_: Option<string>) {
    calls != [] &&
    var before, last := calls[..|calls| - 1], calls[|calls| - 1];
    || (last.ClearRole? && RoleSet(before))
    || (last.ResetRoleID? && old_.Some? && EdgeClearStands(before))
    || (last.ResetRole? && old_.Some? && FieldClearStands(before))
  }

  /**
   * MAIN: for every run of calls and every stored role, the update writes what the calls say in
   * order iff the calls are not misread.
   */
  lemma RoleWrittenInOrderIff(calls: seq<RoleCall>, old_: Option<string>)
    ensures RoleRun(calls).Written(old_) == RoleSequential(calls, old_) <==> !Misread(calls, old_)
  {
    if calls != [] {
      var before, last := calls[..|calls| - 1], calls[|calls| - 1];
      assert RoleRun(calls) == RoleStep(RoleRun(before), last);
      FieldMark(before);
      EdgeMark(before);
      RoleSetIff(before);
    }
  }

  lemma RoleSetIff(calls: seq<RoleCall>)
    ensures RoleRun(calls).role.Some? <==> RoleSet(calls)
  {
    forall v ensures RoleRun(calls).role == Some(v) <==> SetSinceDropped(calls, v) {
      RolePointer(calls, v);
    }
    if RoleRun(calls).role.Some? {
      assert SetSinceDropped(calls, RoleRun(calls).role.value);
    }
  }

  /** ResetRole alone does not undo ClearRole; together with ResetRoleID it does, after any run. */
  lemma UndoingClearRole(calls: seq<RoleCall>)
    ensures RoleRun(calls + [ClearRole, ResetRole]).Cleared()
    ensures RoleRun(calls + [ClearRole, ResetRole, ResetRoleID]) == NO_ROLE_CHANGE
    ensures RoleRun(calls + [ClearRole, ResetRoleID, ResetRole]) == NO_ROLE_CHANGE
  {
    var one := calls + [ClearRole];
    assert one[..|one| - 1] == calls;
    var two, two' := calls + [ClearRole, ResetRole], calls + [ClearRole, ResetRoleID];
    assert two[..|two| - 1] == one == two'[..|two'| - 1];
    var three, three' := calls + [ClearRole, ResetRole, ResetRoleID], calls + [ClearRole, ResetRoleID, ResetRole];
    assert three[..|three| - 1] == two && three'[..|three'| - 1] == two';
  }

  class UserMutation {
    var id: Option<string>
    var username: Option<string>
    var passwordHash: Option<string>
    var isRootAdmin: Option<bool>
    var active: Option<bool>
    var allowedCidrs: Option<seq<string>>
    var appendAllowedCidrs: seq<string>
    var clearedFields: set<string>
    var role: Option<string>
    var clearedRole: bool
    const sessions: EdgeFields<NodeID>
    var done: bool

    function Role(): RoleChange
      reads this
    {
      RoleChange(role, FIELD_ROLE_ID in clearedFields, clearedRole)
    }

    constructor ()
      ensures Role() == NO_ROLE_CHANGE && clearedFields == {}
      ensures id.None? && username.None? && passwordHash.None? && isRootAdmin.None? && active.None?
      ensures allowedCidrs.None? && appendAllowedCidrs == [] && !done
      ensures fresh(sessions) && sessions.Change() == Untouched()
    {
      id, username, passwordHash, isRootAdmin, active := None, None, None, None, None;
      allowedCidrs, appendAllowedCidrs := None, [];
      clearedFields, role, clearedRole, done := {}, None, false, false;
      var s := new EdgeFields<NodeID>();
      sessions := s;
    }

    method CallSetRoleID(s: string)
      modifies this`role
      ensures Role() == RoleStep(old(Role()), SetRoleID(s))
    {
      role := Some(s);
    }

    method CallClearRoleID()
      modifies this`role, this`clearedFields
      ensures Role() == RoleStep(old(Role()), ClearRoleID)
      ensures clearedFields == old(clearedFields) + {FIELD_ROLE_ID}
    {
      role := None;
      clearedFields := clearedFields + {FIELD_ROLE_ID};
    }

    method CallResetRoleID()
      modifies this`role, this`clearedFields
      ensures Role() == RoleStep(old(Role()), ResetRoleID)
      ensures clearedFields == old(clearedFields) - {FIELD_ROLE_ID}
    {
      role := None;
      clearedFields := clearedFields - {FIELD_ROLE_ID};
    }

    method CallClearRole()
      modifies this`clearedRole, this`clearedFields
      ensures Role() == RoleStep(old(Role()), ClearRole)
      ensures clearedFields == old(clearedFields) + {FIELD_ROLE_ID}
    {
      clearedRole := true;
      clearedFields := clearedFields + {FIELD_ROLE_ID};
    }

    method CallResetRole()
      modifies this`role, this`clearedRole
      ensures Role() == RoleStep(old(Role()), ResetRole)
    {
      role := None;
      clearedRole := false;
    }

    /** Any run of role calls on a fresh role leaves what RoleRun says. */
    method ApplyRoleCalls(calls: seq<RoleCall>)
      requires Role() == NO_ROLE_CHANGE
      modifies this`role, this`clearedRole, this`clearedFields
      ensures Role() == RoleRun(calls)
    {
      for i := 0 to |calls|
        invariant Role() == RoleRun(calls[..i])
      {
        assert calls[..i + 1][..i] == calls[..i];
        match calls[i]
        case SetRoleID(v) => CallSetRoleID(v);
        case ClearRoleID => CallClearRoleID();
        case ResetRoleID => CallResetRoleID();
        case ClearRole => CallClearRole();
        case ResetRole => CallResetRole();
      }
      assert calls[..|calls|] == calls;
    }

    method RoleIDs() returns (ids: seq<string>)
      ensures ids == if role.Some? then [role.value] else []
    {
      ids := [];
      if role.Some? {
        ids := ids + [role.value];
      }
    }
  }
}

/** Saving an update of users: scalar columns, the role reference and the sessions edge. */
module UserUpdate {
  import opened Common
  import opened EdgeMutation
  import opened UpdateSpec
  import opened UserMutation

  const ROLE := EdgeSpec(M2O, true, "users", "role_id", TypeString, [])
  const SESSIONS := EdgeSpec(O2M, false, "sessions", "user_id", TypeString, [])
  const ROLE_KEY := ("users", "role_id")
  const SESSIONS_KEY := ("sessions", "user_id")

  datatype FieldValue = Text(s: string) | Flag(b: bool) | Json(list: seq<string>)

  datatype UserSpec = UserSpec(fields: seq<(string, FieldValue)>, appends: seq<(string, seq<string>)>, edges: Spec)

  /** The row after writing the listed columns, in order. */
  function WriteFields(row: map<string, FieldValue>, fields: seq<(string, FieldValue)>): map<string, FieldValue> {
    if fields == [] then row else WriteFields(row, fields[..|fields| - 1])[fields[|fields| - 1].0 := fields[|fields| - 1].1]
  }

  /** The columns that an update can write. */
  const UPDATABLE := {"username", "password_hash", "active", "allowed_cidrs"}

  /** The column keeps what it holds, or that it is not there. */
  ghost predicate Kept(before: map<string, FieldValue>, after: map<string, FieldValue>, name: string) {
    && (name in after <==> name in before)
    && (name in before ==> after[name] == before[name])
  }

  /** Each scalar that is set is in its own column; every other column is kept. */
  ghost predicate ScalarsWritten(before: map<string, FieldValue>, after: map<string, FieldValue>,
                                 username: Option<string>, hash: Option<string>, active: Option<bool>, cidrs: Option<seq<string>>)
  {
    && (if username.Some? then "username" in after && after["username"] == Text(username.value) else Kept(before, after, "username"))
    && (if hash.Some? then "password_hash" in after && after["password_hash"] == Text(hash.value)
        else Kept(before, after, "password_hash"))
    && (if active.Some? then "active" in after && after["active"] == Flag(active.value) else Kept(before, after, "active"))
    && (if cidrs.Some? then "allowed_cidrs" in after && after["allowed_cidrs"] == Json(cidrs.value)
        else Kept(before, after, "allowed_cidrs"))
    && forall name :: name !in UPDATABLE ==> Kept(before, after, name)
  }

  ghost predicate RoleRealised(spec: Spec, role: RoleChange) {
    forall st: Store, self: NodeID :: ROLE_KEY in st ==> RoleRealisedOn(spec, role, st, self)
  }

  ghost predicate RoleRealisedOn(spec: Spec, role: RoleChange, st: Store, self: NodeID)
    requires ROLE_KEY in st
  {
    var after := Apply(st, self, spec);
    && ROLE_KEY in after
    && after[ROLE_KEY].Keys == st[ROLE_KEY].Keys
    && (forall row :: row in st[ROLE_KEY] && row != self ==> after[ROLE_KEY][row] == st[ROLE_KEY][row])
    && (self in st[ROLE_KEY] ==>
          after[ROLE_KEY][self] ==
          if role.role.Some? then Some(Str(role.role.value)) else if role.Cleared() then None else st[ROLE_KEY][self])
  }

  /** The sessions of the updated user, and of every other one: only sessions that are added change hands. */
  ghost predicate SessionsRealised(spec: Spec, sessions: EdgeChange<NodeID>) {
    forall st: Store, self: NodeID :: SessionsRealisedOn(spec, sessions, st, self)
  }

  ghost predicate SessionsRealisedOn(spec: Spec, sessions: EdgeChange<NodeID>, st: Store, self: NodeID) {
    var after := Apply(st, self, spec);
    && Children(after, SESSIONS_KEY, self) == EffectOnRows(sessions, Children(st, SESSIONS_KEY, self), RowsOf(st, SESSIONS_KEY))
    && forall other :: other != self ==>
         Children(after, SESSIONS_KEY, other) == Children(st, SESSIONS_KEY, other) - Pending(sessions)
  }

  /** No other foreign-key column is touched. */
  ghost predicate OthersKept(spec: Spec) {
    forall st: Store, self: NodeID, key :: key in st && key != ROLE_KEY && key != SESSIONS_KEY ==>
      key in Apply(st, self, spec) && Apply(st, self, spec)[key] == st[key]
  }

  /** Everything that the specification of an update of users promises. */
  ghost predicate Specified(spec: UserSpec, m: UserMutation)
    reads m, m.sessions
  {
    && (forall row :: ScalarsWritten(row, WriteFields(row, spec.fields), m.username, m.passwordHash, m.active, m.allowedCidrs))
    && spec.appends == (if m.appendAllowedCidrs == [] then [] else [("allowed_cidrs", m.appendAllowedCidrs)])
    && RoleRealised(spec.edges, m.Role()) && SessionsRealised(spec.edges, m.sessions.Change()) && OthersKept(spec.edges)
  }

  /** UserUpdate.check: only the two validated strings, and only when they are being set. */
  method Check(m: UserMutation, validUsername: string -> bool, validHash: string -> bool) returns (err: Option<EntError>)
    ensures err.None? <==> (m.username.Some? ==> validUsername(m.username.value))
                           && (m.passwordHash.Some? ==> validHash(m.passwordHash.value))
    ensures err.Some? ==> err.value == ValidationError(
              if m.username.Some? && !validUsername(m.username.value) then "username" else "password_hash")
  {
    if m.username.Some? {
      if !validUsername(m.username.value) {
        return Some(ValidationError("username"));
      }
    }
    if m.passwordHash.Some? {
      if !validHash(m.passwordHash.value) {
        return Some(ValidationError("password_hash"));
      }
    }
    return None;
  }

  /** Writing one more column, for every stored row. */
  lemma WriteLast(fields: seq<(string, FieldValue)>, name: string, v: FieldValue)
    ensures forall row :: WriteFields(row, fields + [(name, v)]) == WriteFields(row, fields)[name := v]
  {
    assert (fields + [(name, v)])[..|fields|] == fields;
  }

  function With(row: map<string, FieldValue>, name: string, v: Option<FieldValue>): map<string, FieldValue> {
    if v.Some? then row[name := v.value] else row
  }

  function RowWith(row: map<string, FieldValue>, username: Option<FieldValue>, hash: Option<FieldValue>,
                   active: Option<FieldValue>, cidrs: Option<FieldValue>): map<string, FieldValue> {
    With(With(With(With(row, "username", username), "password_hash", hash), "active", active), "allowed_cidrs", cidrs)
  }

  lemma WithMeans(row: map<string, FieldValue>, name: string, v: Option<FieldValue>, other: string)
    ensures v.Some? ==> name in With(row, name, v) && With(row, name, v)[name] == v.value
    ensures v.None? || other != name ==> Kept(row, With(row, name, v), other)
  {
  }

  /** Four writes to four columns: each column has what was written to it, or is kept. */
  lemma FourWrites(row: map<string, FieldValue>, username: Option<FieldValue>, hash: Option<FieldValue>,
                   active: Option<FieldValue>, cidrs: Option<FieldValue>, name: string)
    ensures var after := RowWith(row, username, hash, active, cidrs);
            var v := if name == "username" then username else if name == "password_hash" then hash
                     else if name == "active" then active else if name == "allowed_cidrs" then cidrs else None;
            if v.Some? then name in after && after[name] == v.value else Kept(row, after, name)
  {
    var one := With(row, "username", username);
    var two := With(one, "password_hash", hash);
    var three := With(two, "active", active);
    WithMeans(row, "username", username, name);
    WithMeans(one, "password_hash", hash, name);
    WithMeans(two, "active", active, name);
    WithMeans(three, "allowed_cidrs", cidrs, name);
  }

  lemma RowWithWrites(row: map<string, FieldValue>, username: Option<string>, hash: Option<string>,
                      active: Option<bool>, cidrs: Option<seq<string>>)
    ensures ScalarsWritten(row, RowWith(row, AsText(username), AsText(hash), AsFlag(active), AsJson(cidrs)), username, hash, active, cidrs)
  {
    hide RowWith;
    var u, h, a, c := AsText(username), AsText(hash), AsFlag(active), AsJson(cidrs);
    forall name ensures name !in UPDATABLE ==> Kept(row, RowWith(row, u, h, a, c), name) {
      FourWrites(row, u, h, a, c, name);
    }
    FourWrites(row, u, h, a, c, "username");
    FourWrites(row, u, h, a, c, "password_hash");
    FourWrites(row, u, h, a, c, "active");
    FourWrites(row, u, h, a, c, "allowed_cidrs");
  }

  function AsText(s: Option<string>): Option<FieldValue> {
    if s.Some? then Some(Text(s.value)) else None
  }

  function AsFlag(b: Option<bool>): Option<FieldValue> {
    if b.Some? then Some(Flag(b.value)) else None
  }

  function AsJson(l: Option<seq<string>>): Option<FieldValue> {
    if l.Some? then Some(Json(l.value)) else None
  }

  /** The emitted columns, and what writing them to any row does. */
  method ScalarFields(m: UserMutation) returns (fields: seq<(string, FieldValue)>)
    ensures forall row :: ScalarsWritten(row, WriteFields(row, fields), m.username, m.passwordHash, m.active, m.allowedCidrs)
  {
    fields := ScalarList(m);
    hide ScalarsWritten, RowWith, WriteFields;
    forall row ensures ScalarsWritten(row, WriteFields(row, fields), m.username, m.passwordHash, m.active, m.allowedCidrs) {
      RowWithWrites(row, m.username, m.passwordHash, m.active, m.allowedCidrs);
    }
  }

  method ScalarList(m: UserMutation) returns (fields: seq<(string, FieldValue)>)
    ensures forall row :: WriteFields(row, fields) ==
                          RowWith(row, AsText(m.username), AsText(m.passwordHash), AsFlag(m.active), AsJson(m.allowedCidrs))
  {
    fields := [];
    if m.username.Some? {
      WriteLast(fields, "username", Text(m.username.value));
      fields := fields + [("username", Text(m.username.value))];
    }
    if m.passwordHash.Some? {
      WriteLast(fields, "password_hash", Text(m.passwordHash.value));
      fields := fields + [("password_hash", Text(m.passwordHash.value))];
    }
    if m.active.Some? {
      WriteLast(fields, "active", Flag(m.active.value));
      fields := fields + [("active", Flag(m.active.value))];
    }
    if m.allowedCidrs.Some? {
      WriteLast(fields, "allowed_cidrs", Json(m.allowedCidrs.value));
      fields := fields + [("allowed_cidrs", Json(m.allowedCidrs.value))];
    }
  }

  function Strs(ids: seq<string>): seq<NodeID> {
    seq(|ids|, i requires 0 <= i < |ids| => Str(ids[i]))
  }

  lemma RoleColumn(st: Store, self: NodeID, cr: seq<EdgeSpec>, cs: seq<EdgeSpec>, ar: seq<EdgeSpec>, as_: seq<EdgeSpec>,
                   role: RoleChange)
    requires ROLE_KEY in st && Avoids(cs, ROLE_KEY) && Avoids(as_, ROLE_KEY)
    requires cr == if role.Cleared() then [ROLE] else []
    requires ar == if role.role.Some? then [ROLE.(nodes := [Str(role.role.value)])] else []
    ensures RoleRealisedOn(Spec(cr + cs, ar + as_), role, st, self)
  {
    assert [] + cr + cs == cr + cs && [] + ar + as_ == ar + as_;
    ColumnAfter(st, self, ROLE_KEY, [], cr, cs, [], ar, as_);
  }

  lemma ToManyChildren(st: Store, self: NodeID, cr: seq<EdgeSpec>, cs: seq<EdgeSpec>, ar: seq<EdgeSpec>, as_: seq<EdgeSpec>,
                       sessions: EdgeChange<NodeID>)
    requires Avoids(cr, SESSIONS_KEY) && Avoids(ar, SESSIONS_KEY)
    requires IsClearPart(cs, SESSIONS, sessions) && IsAddPart(as_, SESSIONS, sessions)
    ensures SessionsRealisedOn(Spec(cr + cs, ar + as_), sessions, st, self)
  {
    assert cr + cs + [] == cr + cs && ar + as_ + [] == ar + as_;
    OneEdge(st, self, SESSIONS, cr, cs, [], ar, as_, [], sessions);
  }

  /** The two edges together, on every store. */
  lemma EdgesRealised(cr: seq<EdgeSpec>, cs: seq<EdgeSpec>, ar: seq<EdgeSpec>, as_: seq<EdgeSpec>,
                      role: RoleChange, sessions: EdgeChange<NodeID>)
    requires cr == if role.Cleared() then [ROLE] else []
    requires ar == if role.role.Some? then [ROLE.(nodes := [Str(role.role.value)])] else []
    requires IsClearPart(cs, SESSIONS, sessions) && IsAddPart(as_, SESSIONS, sessions)
    ensures var spec := Spec(cr + cs, ar + as_); RoleRealised(spec, role) && SessionsRealised(spec, sessions) && OthersKept(spec)
  {
    var spec := Spec(cr + cs, ar + as_);
    forall st: Store, self: NodeID
      ensures ROLE_KEY in st ==> RoleRealisedOn(spec, role, st, self)
      ensures SessionsRealisedOn(spec, sessions, st, self)
    {
      if ROLE_KEY in st {
        RoleColumn(st, self, cr, cs, ar, as_, role);
      }
      ToManyChildren(st, self, cr, cs, ar, as_, sessions);
    }
    forall st: Store, self: NodeID, key | key in st && key != ROLE_KEY && key != SESSIONS_KEY
      ensures key in Apply(st, self, spec) && Apply(st, self, spec)[key] == st[key]
    {
      Untouching(st, self, spec, key);
    }
  }

  /** The emitted specification, before it is handed to the database. */
  method BuildSpec(m: UserMutation) returns (spec: UserSpec)
    ensures Specified(spec, m)
  {
    var fields := ScalarFields(m);
    var appends := [];
    if m.appendAllowedCidrs != [] {
      appends := appends + [("allowed_cidrs", m.appendAllowedCidrs)];
    }
    var clear, add := [], [];
    if FIELD_ROLE_ID in m.clearedFields || m.clearedRole {
      clear := clear + [ROLE];
    }
    var roles := m.RoleIDs();
    if |roles| > 0 {
      var e := ROLE;
      for i := 0 to |roles|
        invariant e == ROLE.(nodes := Strs(roles[..i]))
      {
        e := e.(nodes := e.nodes + [Str(roles[i])]);
      }
      assert roles[..|roles|] == roles && Strs(roles) == [Str(m.role.value)];
      add := add + [e];
    }
    var clear', add' := EmitToMany(m.sessions, SESSIONS);
    spec := UserSpec(fields, appends, Spec(clear + clear', add + add'));
    EdgesRealised(clear, clear', add, add', m.Role(), m.sessions.Change());
  }

  method SqlSave(m: UserMutation, validUsername: string -> bool, validHash: string -> bool,
                 update: UserSpec -> Result<nat, SqlError>)
    returns (spec: Option<UserSpec>, r: Result<nat, EntError>)
    modifies m`done
    ensures spec.Some? <==> (m.username.Some? ==> validUsername(m.username.value))
                            && (m.passwordHash.Some? ==> validHash(m.passwordHash.value))
    ensures spec.Some? ==> Specified(spec.value, m)
    ensures m.done == (old(m.done) || (spec.Some? && update(spec.value).Ok?))
    ensures r.Ok? <==> spec.Some? && update(spec.value).Ok?
    ensures r.Ok? ==> r.value == update(spec.value).value
    ensures spec.None? ==> r.error.ValidationError?
    ensures spec.Some? && r.Err? ==> r.error == Reported(update(spec.value).error, "user")
    ensures spec.Some? && update(spec.value) == Err(NotFound) ==> r == Err(NotFoundError("user"))
    ensures forall msg :: spec.Some? && update(spec.value) == Err(Constraint(msg)) ==> r == Err(ConstraintError(msg))
    ensures forall msg :: spec.Some? && update(spec.value) == Err(Other(msg)) ==> r == Err(Plain(msg))
  {
    var err := Check(m, validUsername, validHash);
    if err.Some? {
      return None, Err(err.value);
    }
    var s := BuildSpec(m);
    spec := Some(s);
    match update(s) {
      case Ok(n) =>
        m.done := true;
        r := Ok(n);
      case Err(e) => r := Err(Reported(e, "user"));
    }
  }

  /**
   * From calls to the stored row: after any run of role calls on a fresh mutation, the saved update
   * leaves the row with what the calls say in order, iff they are not misread.
   */
  lemma SavedRoleCalls(calls: seq<RoleCall>, spec: Spec, st: Store, self: NodeID, stored: Option<string>)
    requires RoleRealised(spec, RoleRun(calls))
    requires ROLE_KEY in st && self in st[ROLE_KEY]
    requires st[ROLE_KEY][self] == Reference(stored)
    ensures var after := Apply(st, self, spec);
            && ROLE_KEY in after && self in after[ROLE_KEY]
            && after[ROLE_KEY][self] == Reference(RoleRun(calls).Written(stored))
            && (after[ROLE_KEY][self] == Reference(RoleSequential(calls, stored)) <==> !Misread(calls, stored))
  {
    assert RoleRealisedOn(spec, RoleRun(calls), st, self);
    RoleWrittenInOrderIff(calls, stored);
  }

  /** The foreign key of a row that refers to a role, or to none. */
  function Reference(role: Option<string>): Option<NodeID> {
    if role.Some? then Some(Str(role.value)) else None
  }
}
