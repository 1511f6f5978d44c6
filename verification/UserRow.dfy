/** Reading users from result rows: the scan holders, and assigning them to the node. */
module UserRow {
  import opened Common

  /** A column of a result: one of the seven columns of users, or anything else the query selected. */
  datatype Column = ID | Username | PasswordHash | IsRootAdmin | Active | RoleID | AllowedCidrs | Other(name: string)

  const COLUMNS := [ID, Username, PasswordHash, IsRootAdmin, Active, RoleID, AllowedCidrs]

  type Json = seq<bv8>

  /** A scan destination, empty or filled by the driver. */
  datatype Holder = NullString(valid: bool, s: string) | NullBool(valid: bool, b: bool) | RawBytes(raw: Json) | UnknownType(any: DbValue)

  /** A column value of a row. */
  datatype DbValue = Null | Text(s: string) | Bool(b: bool) | JsonText(raw: Json)

  datatype Kind = StringKind | BoolKind | BytesKind | UnknownKind

  function KindOf(column: Column): Kind {
    match column
    case AllowedCidrs => BytesKind
    case IsRootAdmin => BoolKind
    case Active => BoolKind
    case Other(_) => UnknownKind
    case _ => StringKind
  }

  predicate HasKind(h: Holder, k: Kind) {
    match k
    case StringKind => h.NullString?
    case BoolKind => h.NullBool?
    case BytesKind => h.RawBytes?
    case UnknownKind => true
  }

  method ScanValues(columns: seq<Column>) returns (values: seq<Holder>)
    ensures |values| == |columns|
    ensures forall i :: 0 <= i < |columns| ==> HasKind(values[i], KindOf(columns[i])) && !CarriesValue(values[i])
    ensures forall i :: 0 <= i < |columns| ==> (KindOf(columns[i]).UnknownKind? <==> values[i].UnknownType?)
  {
    values := [];
    for i := 0 to |columns|
      invariant |values| == i
      invariant forall k :: 0 <= k < i ==> HasKind(values[k], KindOf(columns[k])) && !CarriesValue(values[k])
      invariant forall k :: 0 <= k < i ==> (KindOf(columns[k]).UnknownKind? <==> values[k].UnknownType?)
    {
      var h: Holder;
      match columns[i] {
        case AllowedCidrs => h := RawBytes([]);
        case IsRootAdmin => h := NullBool(false, false);
        case Active => h := NullBool(false, false);
        case Other(_) => h := UnknownType(Null);
        case _ => h := NullString(false, "");
      }
      values := values + [h];
    }
  }

  /** A holder whose value assignValues will use: not NULL, and not empty bytes. */
  predicate CarriesValue(h: Holder) {
    match h
    case NullString(valid, _) => valid
    case NullBool(valid, _) => valid
    case RawBytes(raw) => raw != []
    case UnknownType(_) => false
  }

  /** The node's fields. */
  datatype Value = Value(id: string, username: string, passwordHash: string, isRootAdmin: bool, active: bool,
                         roleID: Option<string>, allowedCidrs: seq<string>)

  const ZERO_VALUE := Value("", "", "", false, false, None, [])

  datatype AssignError = LengthMismatch(values: nat, columns: nat) | UnexpectedType(column: Column) | BadJson(column: Column)

  type Decoder = Json -> Option<seq<string>>

  /** Position i stops the assignment: a holder of the wrong type, or bytes that are no list. */
  predicate Bad(column: Column, h: Holder, decode: Decoder) {
    !HasKind(h, KindOf(column)) || (column == AllowedCidrs && h.RawBytes? && h.raw != [] && decode(h.raw).None?)
  }

  function FirstBad(columns: seq<Column>, values: seq<Holder>, decode: Decoder): (n: nat)
    requires |columns| <= |values|
    ensures n <= |columns|
    ensures n < |columns| ==> Bad(columns[n], values[n], decode)
    ensures forall k :: 0 <= k < n ==> !Bad(columns[k], values[k], decode)
  {
    if columns == [] then 0
    else
      var n := FirstBad(columns[..|columns| - 1], values, decode);
      if n < |columns| - 1 then n else if Bad(columns[n], values[n], decode) then n else n + 1
  }

  /** The holder at the last occurrence of a column that carries a value. */
  function LastCarrying(columns: seq<Column>, values: seq<Holder>, column: Column): Option<Holder>
    requires |columns| <= |values|
  {
    if columns == [] then None
    else
      var n := |columns| - 1;
      if columns[n] == column && CarriesValue(values[n]) then Some(values[n])
      else LastCarrying(columns[..n], values, column)
  }

  lemma {:induction false} LastCarryingMeaning(columns: seq<Column>, values: seq<Holder>, column: Column)
    requires |columns| <= |values|
    ensures match LastCarrying(columns, values, column)
            case Some(h) =>
              exists k :: 0 <= k < |columns| && columns[k] == column && values[k] == h && CarriesValue(h)
                          && forall l :: k < l < |columns| && columns[l] == column ==> !CarriesValue(values[l])
            case None => forall k :: 0 <= k < |columns| && columns[k] == column ==> !CarriesValue(values[k])
  {
    if columns != [] {
      var n := |columns| - 1;
      if !(columns[n] == column && CarriesValue(values[n])) {
        LastCarryingMeaning(columns[..n], values, column);
      }
    }
  }

  function StringOr(h: Option<Holder>, old_: string): string {
    if h.Some? && h.value.NullString? then h.value.s else old_
  }

  function BoolOr(h: Option<Holder>, old_: bool): bool {
    if h.Some? && h.value.NullBool? then h.value.b else old_
  }

  /** Every field from the last occurrence of its column that carries a value, or else unchanged. */
  function ReadOff(columns: seq<Column>, values: seq<Holder>, decode: Decoder, old_: Value): Value
    requires |columns| <= |values|
  {
    var role := LastCarrying(columns, values, RoleID);
    var cidrs := LastCarrying(columns, values, AllowedCidrs);
    Value(StringOr(LastCarrying(columns, values, ID), old_.id),
          StringOr(LastCarrying(columns, values, Username), old_.username),
          StringOr(LastCarrying(columns, values, PasswordHash), old_.passwordHash),
          BoolOr(LastCarrying(columns, values, IsRootAdmin), old_.isRootAdmin),
          BoolOr(LastCarrying(columns, values, Active), old_.active),
          if role.Some? && role.value.NullString? then Some(role.value.s) else old_.roleID,
          if cidrs.Some? && cidrs.value.RawBytes? && decode(cidrs.value.raw).Some? then decode(cidrs.value.raw).value
          else old_.allowedCidrs)
  }

  /** The values of other columns that the query selected, by name; the last one of a name stays. */
  function Selected(columns: seq<Column>, values: seq<Holder>, old_: map<string, Holder>): map<string, Holder>
    requires |columns| <= |values|
  {
    if columns == [] then old_
    else
      var n := |columns| - 1;
      var before := Selected(columns[..n], values, old_);
      if columns[n].Other? then before[columns[n].name := values[n]] else before
  }

  /** A name has the holder of its last column among those selected, or else what it had. */
  lemma {:induction false} SelectedMeaning(columns: seq<Column>, values: seq<Holder>, old_: map<string, Holder>, name: string)
    requires |columns| <= |values|
    ensures var selected := Selected(columns, values, old_);
            if Column.Other(name) in columns then
              exists k :: 0 <= k < |columns| && columns[k] == Column.Other(name) && name in selected && selected[name] == values[k]
                          && forall l :: k < l < |columns| ==> columns[l] != Column.Other(name)
            else (name in selected <==> name in old_) && (name in old_ ==> selected[name] == old_[name])
  {
    if columns != [] {
      var n := |columns| - 1;
      assert columns == columns[..n] + [columns[n]];
      SelectedMeaning(columns[..n], values, old_, name);
      if columns[n] != Column.Other(name) && Column.Other(name) in columns {
        var k :| 0 <= k < n && columns[..n][k] == Column.Other(name) && Selected(columns[..n], values, old_)[name] == values[k]
                 && forall l :: k < l < n ==> columns[..n][l] != Column.Other(name);
        assert columns[k] == Column.Other(name) && forall l :: k < l < n ==> columns[l] == columns[..n][l];
      }
    }
  }

  class User {
    var id: string
    var username: string
    var passwordHash: string
    var isRootAdmin: bool
    var active: bool
    var roleID: Option<string>
    var allowedCidrs: seq<string>
    var selectValues: map<string, Holder>

    function View(): Value
      reads this
    {
      Value(id, username, passwordHash, isRootAdmin, active, roleID, allowedCidrs)
    }

    constructor ()
      ensures View() == ZERO_VALUE && selectValues == map[]
    {
      id, username, passwordHash, isRootAdmin, active := "", "", "", false, false;
      roleID, allowedCidrs, selectValues := None, [], map[];
    }

    /** One iteration of assignValues. */
    method AssignOne(column: Column, h: Holder, decode: Decoder) returns (err: Option<AssignError>)
      modifies this
      ensures err.Some? <==> Bad(column, h, decode)
      ensures err.Some? ==> View() == old(View()) && selectValues == old(selectValues)
                            && err.value == if HasKind(h, KindOf(column)) then BadJson(column) else UnexpectedType(column)
      ensures err.None? ==> View() == ReadOff([column], [h], decode, old(View()))
      ensures err.None? ==> selectValues == if KindOf(column).UnknownKind? then old(selectValues)[column.name := h] else old(selectValues)
    {
      forall c ensures LastCarrying([column], [h], c) == if column == c && CarriesValue(h) then Some(h) else None {
        SingleCarrying(column, h, c);
      }
      if column == ID {
        if !h.NullString? {
          return Some(UnexpectedType(column));
        } else if h.valid {
          id := h.s;
        }
      } else if column == Username {
        if !h.NullString? {
          return Some(UnexpectedType(column));
        } else if h.valid {
          username := h.s;
        }
      } else if column == PasswordHash {
        if !h.NullString? {
          return Some(UnexpectedType(column));
        } else if h.valid {
          passwordHash := h.s;
        }
      } else if column == IsRootAdmin {
        if !h.NullBool? {
          return Some(UnexpectedType(column));
        } else if h.valid {
          isRootAdmin := h.b;
        }
      } else if column == Active {
        if !h.NullBool? {
          return Some(UnexpectedType(column));
        } else if h.valid {
          active := h.b;
        }
      } else if column == RoleID {
        if !h.NullString? {
          return Some(UnexpectedType(column));
        } else if h.valid {
          roleID := Some(h.s);
        }
      } else if column == AllowedCidrs {
        if !h.RawBytes? {
          return Some(UnexpectedType(column));
        } else if |h.raw| > 0 {
          var list := decode(h.raw);
          if list.None? {
            return Some(BadJson(column));
          }
          allowedCidrs := list.value;
        }
      } else {
        selectValues := selectValues[column.name := h];
      }
      return None;
    }

    /**
     * assignValues: columns are taken in order until one is bad; the fields are then those read off
     * the columns before it.
     */
    method AssignValues(columns: seq<Column>, values: seq<Holder>, decode: Decoder) returns (err: Option<AssignError>)
      modifies this
      ensures |values| < |columns| ==> err == Some(LengthMismatch(|values|, |columns|))
                                       && View() == old(View()) && selectValues == old(selectValues)
      ensures |columns| <= |values| ==>
                var n := FirstBad(columns, values, decode);
                && err == Complaint(columns, values, n)
                && View() == ReadOff(columns[..n], values, decode, old(View()))
                && selectValues == Selected(columns[..n], values, old(selectValues))
    {
      if |values| < |columns| {
        return Some(LengthMismatch(|values|, |columns|));
      }
      err := AssignColumns(columns, values, decode);
    }

    /** Its loop. */
    method AssignColumns(columns: seq<Column>, values: seq<Holder>, decode: Decoder) returns (err: Option<AssignError>)
      requires |columns| <= |values|
      modifies this
      ensures var n := FirstBad(columns, values, decode);
              && err == Complaint(columns, values, n)
              && View() == ReadOff(columns[..n], values, decode, old(View()))
              && selectValues == Selected(columns[..n], values, old(selectValues))
    {
      hide ReadOff, Selected, FirstBad;
      ReadNothing(columns, values, decode, old(View()), old(selectValues));
      for i := 0 to |columns|
        invariant forall k :: 0 <= k < i ==> !Bad(columns[k], values[k], decode)
        invariant View() == ReadOff(columns[..i], values, decode, old(View()))
        invariant selectValues == Selected(columns[..i], values, old(selectValues))
      {
        FirstBadIs(columns, values, decode, i);
        err := AssignOne(columns[i], values[i], decode);
        if err.Some? {
          return;
        }
        ReadOffOneMore(columns, values, decode, old(View()), i);
        SelectedOneMore(columns, values, old(selectValues), i);
      }
      FirstBadIs(columns, values, decode, |columns|);
      return None;
    }
  }

  /** The error about position n, or none past the end. */
  function Complaint(columns: seq<Column>, values: seq<Holder>, n: nat): Option<AssignError>
    requires n <= |columns| <= |values|
  {
    if n == |columns| then None
    else if HasKind(values[n], KindOf(columns[n])) then Some(BadJson(columns[n]))
    else Some(UnexpectedType(columns[n]))
  }

  lemma FirstBadIs(columns: seq<Column>, values: seq<Holder>, decode: Decoder, i: nat)
    requires i <= |columns| <= |values| && forall k :: 0 <= k < i ==> !Bad(columns[k], values[k], decode)
    ensures (i == |columns| || Bad(columns[i], values[i], decode)) ==> FirstBad(columns, values, decode) == i
  {
  }

  lemma ReadNothing(columns: seq<Column>, values: seq<Holder>, decode: Decoder, old_: Value, selected: map<string, Holder>)
    requires |columns| <= |values|
    ensures ReadOff(columns[..0], values, decode, old_) == old_ && Selected(columns[..0], values, selected) == selected
  {
  }

  lemma SelectedOneMore(columns: seq<Column>, values: seq<Holder>, old_: map<string, Holder>, i: nat)
    requires i < |columns| <= |values|
    ensures Selected(columns[..i + 1], values, old_) ==
            var before := Selected(columns[..i], values, old_);
            if columns[i].Other? then before[columns[i].name := values[i]] else before
  {
    assert columns[..i + 1][..i] == columns[..i];
  }

  lemma SingleCarrying(column: Column, h: Holder, c: Column)
    ensures LastCarrying([column], [h], c) == if column == c && CarriesValue(h) then Some(h) else None
  {
    assert [column][..0] == [];
  }

  lemma LastCarryingOneMore(columns: seq<Column>, values: seq<Holder>, i: nat, column: Column)
    requires i < |columns| <= |values|
    ensures LastCarrying(columns[..i + 1], values, column) ==
            if columns[i] == column && CarriesValue(values[i]) then Some(values[i]) else LastCarrying(columns[..i], values, column)
  {
    assert columns[..i + 1][..i] == columns[..i];
  }

  lemma ReadOffOneMore(columns: seq<Column>, values: seq<Holder>, decode: Decoder, old_: Value, i: nat)
    requires i < |columns| <= |values| && !Bad(columns[i], values[i], decode)
    ensures ReadOff(columns[..i + 1], values, decode, old_) ==
            ReadOff([columns[i]], [values[i]], decode, ReadOff(columns[..i], values, decode, old_))
  {
    forall c
      ensures LastCarrying(columns[..i + 1], values, c) ==
              if columns[i] == c && CarriesValue(values[i]) then Some(values[i]) else LastCarrying(columns[..i], values, c)
      ensures LastCarrying([columns[i]], [values[i]], c) == if columns[i] == c && CarriesValue(values[i]) then Some(values[i]) else None
    {
      LastCarryingOneMore(columns, values, i, c);
      SingleCarrying(columns[i], values[i], c);
    }
  }
}
