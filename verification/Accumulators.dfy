/** Fields that can be set, accumulated onto and reset: a number and a list. */
module CounterMutation {
  import opened Common

  const TWO_63: int := 0x8000_0000_0000_0000
  const TWO_64: int := 0x1_0000_0000_0000_0000

  newtype int64 = x: int | -0x8000_0000_0000_0000 <= x < 0x8000_0000_0000_0000

  /** The signed 64-bit value that an unbounded result wraps around to. */
  function Wrap(x: int): int64 {
    ((x + TWO_63) % TWO_64 - TWO_63) as int64
  }

  function PlusWrap(a: int64, b: int64): int64 {
    Wrap(a as int + b as int)
  }

  lemma WrapWrap(a: int, b: int)
    ensures Wrap(Wrap(a) as int + b) == Wrap(a + b)
  {
    var q := (a + TWO_63) / TWO_64;
    assert Wrap(a) as int == a - TWO_64 * q;
  }

  /** Wrapping leaves exactly the numbers of 64 bits alone. */
  lemma WrapKeepsIff(x: int)
    ensures Wrap(x) as int == x <==> -TWO_63 <= x < TWO_63
  {
  }

  lemma PlusWrapAssociates(a: int64, b: int64, c: int64)
    ensures PlusWrap(PlusWrap(a, b), c) == PlusWrap(a, PlusWrap(b, c))
  {
    WrapWrap(a as int + b as int, c as int);
    WrapWrap(b as int + c as int, a as int);
  }

  lemma PlusWrapZero(a: int64)
    ensures PlusWrap(a, 0) == a == Wrap(a as int)
  {
  }

  const FIELD_KEY_ROOT_ID := "key_root_id"
  const FIELD_ADAPTER := "adapter"
  const FIELD_NEXT_INDEX := "next_index"

  datatype Value = Text(s: string) | Int64(i: int64) | OtherType

  /** The numeric field: a pending value and a pending increment. */
  datatype NumberChange = NumberChange(value: Option<int64>, added: Option<int64>)

  datatype NumberCall = Set(v: int64) | Add(d: int64) | Reset

  function NumberStep(c: NumberChange, call: NumberCall): NumberChange {
    match call
    case Set(v) => NumberChange(Some(v), None)
    case Add(d) => c.(added := Some(if c.added.Some? then PlusWrap(c.added.value, d) else d))
    case Reset => NumberChange(None, None)
  }

  function NumberRun(calls: seq<NumberCall>): NumberChange {
    if calls == [] then NumberChange(None, None) else NumberStep(NumberRun(calls[..|calls| - 1]), calls[|calls| - 1])
  }

  /** The increments since the last Set or Reset. */
  function Increments(calls: seq<NumberCall>): seq<int64> {
    if calls == [] then []
    else
      match calls[|calls| - 1]
      case Add(d) => Increments(calls[..|calls| - 1]) + [d]
      case Set(_) => []
      case Reset => []
  }

  /** Their sum over the unbounded integers. */
  function Sum(ds: seq<int64>): int {
    if ds == [] then 0 else Sum(ds[..|ds| - 1]) + ds[|ds| - 1] as int
  }

  /** The last Set since the last Reset. */
  function LastSet(calls: seq<NumberCall>): Option<int64> {
    if calls == [] then None
    else
      match calls[|calls| - 1]
      case Add(_) => LastSet(calls[..|calls| - 1])
      case Set(v) => Some(v)
      case Reset => None
  }

  /** The calls one after another over a stored number. */
  function NumberSequential(calls: seq<NumberCall>, old_: int64): int64 {
    if calls == [] then old_
    else
      match calls[|calls| - 1]
      case Add(d) => PlusWrap(NumberSequential(calls[..|calls| - 1], old_), d)
      case Set(v) => v
      case Reset => old_
  }

  /**
   * MAIN: after every run of calls the pending increment is the wrapped unbounded sum of the
   * increments since the last Set or Reset, absent iff there were none; and reading the set value,
   * or else the stored one, plus that increment gives the calls one after another.
   */
  lemma {:induction false} NumberRunMeaning(calls: seq<NumberCall>, old_: int64)
    ensures NumberRun(calls).added == if Increments(calls) == [] then None else Some(Wrap(Sum(Increments(calls))))
    ensures NumberRun(calls).value == LastSet(calls)
    ensures PlusWrap(NumberRun(calls).value.GetOr(old_), NumberRun(calls).added.GetOr(0)) == NumberSequential(calls, old_)
  {
    PlusWrapZero(old_);
    if calls != [] {
      var init := calls[..|calls| - 1];
      NumberRunMeaning(init, old_);
      hide Wrap, PlusWrap, Sum;
      match calls[|calls| - 1]
      case Add(d) => OneMoreIncrement(init, d, old_);
      case Set(v) => PlusWrapZero(v);
      case Reset =>
    }
  }

  lemma OneMoreIncrement(init: seq<NumberCall>, d: int64, old_: int64)
    requires NumberRun(init).added == if Increments(init) == [] then None else Some(Wrap(Sum(Increments(init))))
    ensures var c := NumberStep(NumberRun(init), Add(d));
            && c.added == Some(Wrap(Sum(Increments(init) + [d])))
            && PlusWrap(c.value.GetOr(old_), c.added.value) ==
               PlusWrap(PlusWrap(NumberRun(init).value.GetOr(old_), NumberRun(init).added.GetOr(0)), d)
  {
    var ds := Increments(init) + [d];
    assert ds[..|ds| - 1] == Increments(init);
    var base := NumberRun(init).value.GetOr(old_);
    PlusWrapZero(d);
    PlusWrapZero(base);
    WrapWrap(Sum(Increments(init)), d as int);
    PlusWrapAssociates(base, NumberRun(init).added.GetOr(0), d);
  }

  /** The pending increment is the true sum iff that sum fits into 64 bits. */
  lemma IncrementIsSumIff(calls: seq<NumberCall>)
    requires Increments(calls) != []
    ensures NumberRun(calls).added.Some?
    ensures NumberRun(calls).added.value as int == Sum(Increments(calls)) <==> -TWO_63 <= Sum(Increments(calls)) < TWO_63
  {
    NumberRunMeaning(calls, 0);
    WrapKeepsIff(Sum(Increments(calls)));
    hide *;
  }

  /** Two increments of 2^62 leave a negative pending increment. */
  lemma IncrementsOverflow()
    ensures var big: int64 := 0x4000_0000_0000_0000;
            NumberRun([Add(big), Add(big)]).added == Some(-0x8000_0000_0000_0000)
  {
    var big: int64 := 0x4000_0000_0000_0000;
    var calls := [Add(big), Add(big)];
    assert calls[..1] == [Add(big)] && calls[..1][..0] == [];
    assert NumberRun(calls[..1]) == NumberStep(NumberRun(calls[..1][..0]), Add(big));
  }

  /** The observable state of a wallet counter mutation. */
  datatype State = State(keyRoot: Option<string>, adapter: Option<string>, number: NumberChange,
                         clearedKeyRoot: bool, clearedFields: set<string>)

  class WalletCounterMutation {
    var keyRoot: Option<string>
    var adapter: Option<string>
    var nextIndex: Option<int64>
    var addNextIndex: Option<int64>
    var clearedKeyRoot: bool
    var clearedFields: set<string>

    function View(): State
      reads this
    {
      State(keyRoot, adapter, NumberChange(nextIndex, addNextIndex), clearedKeyRoot, clearedFields)
    }

    constructor ()
      ensures View() == State(None, None, NumberChange(None, None), false, {})
    {
      keyRoot, adapter, nextIndex, addNextIndex := None, None, None, None;
      clearedKeyRoot, clearedFields := false, {};
    }

    method SetNextIndex(i: int64)
      modifies this
      ensures View() == old(View()).(number := NumberStep(old(View()).number, Set(i)))
    {
      nextIndex := Some(i);
      addNextIndex := None;
    }

    method AddNextIndex(i: int64)
      modifies this
      ensures View() == old(View()).(number := NumberStep(old(View()).number, Add(i)))
    {
      if addNextIndex.Some? {
        addNextIndex := Some(PlusWrap(addNextIndex.value, i));
      } else {
        addNextIndex := Some(i);
      }
    }

    method ResetNextIndex()
      modifies this
      ensures View() == old(View()).(number := NumberStep(old(View()).number, Reset))
    {
      nextIndex := None;
      addNextIndex := None;
    }

    method ClearKeyRoot()
      modifies this
      ensures View() == old(View()).(clearedKeyRoot := true, clearedFields := old(clearedFields) + {FIELD_KEY_ROOT_ID})
    {
      clearedKeyRoot := true;
      clearedFields := clearedFields + {FIELD_KEY_ROOT_ID};
    }

    method ResetKeyRoot()
      modifies this
      ensures View() == old(View()).(keyRoot := None, clearedKeyRoot := false)
    {
      keyRoot := None;
      clearedKeyRoot := false;
    }

    /** The names of the set fields, in schema order. */
    method Fields() returns (names: seq<string>)
      ensures names == FieldNames(View())
    {
      names := [];
      if keyRoot.Some? {
        names := names + [FIELD_KEY_ROOT_ID];
      }
      if adapter.Some? {
        names := names + [FIELD_ADAPTER];
      }
      if nextIndex.Some? {
        names := names + [FIELD_NEXT_INDEX];
      }
    }

    method AddedFields() returns (names: seq<string>)
      ensures names == if addNextIndex.Some? then [FIELD_NEXT_INDEX] else []
    {
      names := [];
      if addNextIndex.Some? {
        names := names + [FIELD_NEXT_INDEX];
      }
    }

    function Field(name: string): (v: Option<Value>)
      reads this
      ensures v.Some? <==> name in FieldNames(View())
      ensures v.Some? ==> (v.value.Int64? <==> name == FIELD_NEXT_INDEX) && !v.value.OtherType?
    {
      if name == FIELD_KEY_ROOT_ID then (if keyRoot.Some? then Some(Text(keyRoot.value)) else None)
      else if name == FIELD_ADAPTER then (if adapter.Some? then Some(Text(adapter.value)) else None)
      else if name == FIELD_NEXT_INDEX then (if nextIndex.Some? then Some(Int64(nextIndex.value)) else None)
      else None
    }

    function AddedField(name: string): Option<Value>
      reads this
    {
      if name == FIELD_NEXT_INDEX && addNextIndex.Some? then Some(Int64(addNextIndex.value)) else None
    }

    /** An unknown name or a value of the wrong type changes nothing. */
    method SetField(name: string, value: Value) returns (err: bool)
      modifies this
      ensures err <==> !(value.Text? && name in {FIELD_KEY_ROOT_ID, FIELD_ADAPTER}) && !(value.Int64? && name == FIELD_NEXT_INDEX)
      ensures err ==> View() == old(View())
      ensures !err && name == FIELD_KEY_ROOT_ID ==> View() == old(View()).(keyRoot := Some(value.s))
      ensures !err && name == FIELD_ADAPTER ==> View() == old(View()).(adapter := Some(value.s))
      ensures !err && name == FIELD_NEXT_INDEX ==> View() == old(View()).(number := NumberChange(Some(value.i), None))
    {
      if name == FIELD_KEY_ROOT_ID {
        if !value.Text? {
          return true;
        }
        keyRoot := Some(value.s);
        return false;
      } else if name == FIELD_ADAPTER {
        if !value.Text? {
          return true;
        }
        adapter := Some(value.s);
        return false;
      } else if name == FIELD_NEXT_INDEX {
        if !value.Int64? {
          return true;
        }
        SetNextIndex(value.i);
        return false;
      }
      return true;
    }

    method AddField(name: string, value: Value) returns (err: bool)
      modifies this
      ensures err <==> !(value.Int64? && name == FIELD_NEXT_INDEX)
      ensures View() == if err then old(View()) else old(View()).(number := NumberStep(old(View()).number, Add(value.i)))
    {
      if name == FIELD_NEXT_INDEX {
        if !value.Int64? {
          return true;
        }
        AddNextIndex(value.i);
        return false;
      }
      return true;
    }
  }

  function FieldNames(s: State): seq<string> {
    (if s.keyRoot.Some? then [FIELD_KEY_ROOT_ID] else [])
    + (if s.adapter.Some? then [FIELD_ADAPTER] else [])
    + (if s.number.value.Some? then [FIELD_NEXT_INDEX] else [])
  }

  /** The part of a state that the first n set fields carry over. */
  function Carried(s: State, n: nat): State {
    var names := FieldNames(s)[..if n <= |FieldNames(s)| then n else |FieldNames(s)|];
    State(if FIELD_KEY_ROOT_ID in names then s.keyRoot else None,
          if FIELD_ADAPTER in names then s.adapter else None,
          NumberChange(if FIELD_NEXT_INDEX in names then s.number.value else None, None),
          false, {})
  }

  lemma CarriedAll(s: State)
    ensures Carried(s, |FieldNames(s)|) == State(s.keyRoot, s.adapter, NumberChange(s.number.value, None), false, {})
  {
    var names := FieldNames(s);
    assert names[..|names|] == names;
    assert s.keyRoot.Some? ==> names[0] == FIELD_KEY_ROOT_ID;
    assert s.adapter.Some? ==> names[if s.keyRoot.Some? then 1 else 0] == FIELD_ADAPTER;
    assert s.number.value.Some? ==> names[|names| - 1] == FIELD_NEXT_INDEX;
  }

  /**
   * MAIN: replaying Fields through SetField and AddedFields through AddField onto a fresh mutation
   * never fails and reproduces every field of any source state; it reproduces the whole state iff
   * no clear of the key root edge is recorded, which the replayed calls cannot carry.
   */
  method Replay(src: WalletCounterMutation) returns (dst: WalletCounterMutation, err: bool)
    ensures !err && fresh(dst)
    ensures dst.View() == src.View().(clearedKeyRoot := false, clearedFields := {})
    ensures dst.View() == src.View() <==> !src.clearedKeyRoot && src.clearedFields == {}
  {
    dst := new WalletCounterMutation();
    var e := ReplaySet(src, dst);
    var e' := ReplayAdded(src, dst);
    err := e || e';
  }

  /** After a clear of the key root the replay differs, even if the edge is reset again. */
  method ReplayAfterClear(src: WalletCounterMutation, reset: bool) returns (dst: WalletCounterMutation)
    modifies src
    ensures fresh(dst) && dst.View() != src.View()
  {
    src.ClearKeyRoot();
    if reset {
      src.ResetKeyRoot();
    }
    var err;
    dst, err := Replay(src);
  }

  /** Fields through SetField. */
  method ReplaySet(src: WalletCounterMutation, dst: WalletCounterMutation) returns (err: bool)
    requires src != dst && dst.View() == State(None, None, NumberChange(None, None), false, {})
    modifies dst
    ensures !err && dst.View() == State(src.keyRoot, src.adapter, NumberChange(src.nextIndex, None), false, {})
  {
    err := false;
    var names := src.Fields();
    for i := 0 to |names|
      invariant dst.View() == Carried(src.View(), i)
      invariant !err
    {
      var e := dst.SetField(names[i], src.Field(names[i]).value);
      err := err || e;
    }
    CarriedAll(src.View());
  }

  /** AddedFields through AddField. */
  method ReplayAdded(src: WalletCounterMutation, dst: WalletCounterMutation) returns (err: bool)
    requires src != dst && dst.addNextIndex.None?
    modifies dst
    ensures !err && dst.View() == old(dst.View()).(number := NumberChange(old(dst.nextIndex), src.addNextIndex))
  {
    err := false;
    var names := src.AddedFields();
    for i := 0 to |names|
      invariant dst.View() == old(dst.View()).(number := NumberChange(old(dst.nextIndex), if i == 0 then None else src.addNextIndex))
      invariant !err
    {
      var e := dst.AddField(names[i], src.AddedField(names[i]).value);
      err := err || e;
    }
  }
}

/** The permissions list of a role: set, append, reset. */
module Permissions {
  import opened Common

  datatype ListChange = ListChange(value: Option<seq<string>>, appended: seq<string>)

  datatype ListCall = Set(s: seq<string>) | Append(s: seq<string>) | Reset

  function ListStep(c: ListChange, call: ListCall): ListChange {
    match call
    case Set(s) => ListChange(Some(s), [])
    case Append(s) => c.(appended := c.appended + s)
    case Reset => ListChange(None, [])
  }

  function ListRun(calls: seq<ListCall>): ListChange {
    if calls == [] then ListChange(None, []) else ListStep(ListRun(calls[..|calls| - 1]), calls[|calls| - 1])
  }

  /** The appended lists since the last Set or Reset. */
  function Appends(calls: seq<ListCall>): seq<seq<string>> {
    if calls == [] then []
    else
      match calls[|calls| - 1]
      case Append(s) => Appends(calls[..|calls| - 1]) + [s]
      case Set(_) => []
      case Reset => []
  }

  function Flatten(ss: seq<seq<string>>): seq<string> {
    if ss == [] then [] else Flatten(ss[..|ss| - 1]) + ss[|ss| - 1]
  }

  function ListSequential(calls: seq<ListCall>, old_: seq<string>): seq<string> {
    if calls == [] then old_
    else
      match calls[|calls| - 1]
      case Append(s) => ListSequential(calls[..|calls| - 1], old_) + s
      case Set(s) => s
      case Reset => old_
  }

  /** The pending tail is the concatenation of the appends; set-or-stored plus tail is the calls in order. */
  lemma {:induction false} ListRunMeaning(calls: seq<ListCall>, old_: seq<string>)
    ensures ListRun(calls).appended == Flatten(Appends(calls))
    ensures ListRun(calls).value.GetOr(old_) + ListRun(calls).appended == ListSequential(calls, old_)
  {
    if calls != [] {
      var init := calls[..|calls| - 1];
      ListRunMeaning(init, old_);
      match calls[|calls| - 1]
      case Append(s) =>
        assert Appends(calls)[..|Appends(calls)| - 1] == Appends(init);
        var base, tail := ListRun(init).value.GetOr(old_), ListRun(init).appended;
        assert base + (tail + s) == (base + tail) + s;
      case Set(_) =>
      case Reset =>
    }
  }

  class RoleMutation {
    var permissions: Option<seq<string>>
    var appendPermissions: seq<string>

    function View(): ListChange
      reads this
    {
      ListChange(permissions, appendPermissions)
    }

    constructor ()
      ensures View() == ListRun([])
    {
      permissions, appendPermissions := None, [];
    }

    method SetPermissions(s: seq<string>)
      modifies this
      ensures View() == ListStep(old(View()), Set(s))
    {
      permissions := Some(s);
      appendPermissions := [];
    }

    method AppendPermissions(s: seq<string>)
      modifies this
      ensures View() == ListStep(old(View()), Append(s))
    {
      appendPermissions := appendPermissions + s;
    }

    method ResetPermissions()
      modifies this
      ensures View() == ListStep(old(View()), Reset)
    {
      permissions := None;
      appendPermissions := [];
    }

    /** Appending only empty lists reads as not having appended. */
    method AppendedPermissions() returns (r: Option<seq<string>>)
      ensures r == if appendPermissions == [] then None else Some(appendPermissions)
    {
      if |appendPermissions| == 0 {
        return None;
      }
      return Some(appendPermissions);
    }
  }
}
