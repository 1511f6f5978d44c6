/**
 * The change set that a mutation keeps for one to-many edge (AddXIDs, RemoveXIDs,
 * ClearX, ResetX), and what an arbitrary run of those calls means.
 */
module EdgeMutation {
  import opened Common

  /** The three fields a mutation keeps per edge; None is a nil Go map. */
  datatype EdgeChange<K> = EdgeChange(added: Option<set<K>>, removed: Option<set<K>>, cleared: bool)

  function Untouched<K>(): EdgeChange<K> {
    EdgeChange(None, None, false)
  }

  datatype EdgeOp<K> = Add(ids: seq<K>) | Remove(ids: seq<K>) | Clear | Reset

  function Pending<K>(c: EdgeChange<K>): set<K> {
    c.added.GetOr({})
  }

  function Step<K>(c: EdgeChange<K>, op: EdgeOp<K>): EdgeChange<K> {
    match op
    case Add(ids) => c.(added := Some(Pending(c) + ToSet(ids)))
    case Remove(ids) =>
      EdgeChange(if c.added.None? then None else Some(c.added.value - ToSet(ids)),
                 Some(c.removed.GetOr({}) + ToSet(ids)),
                 c.cleared)
    case Clear => c.(cleared := true)
    case Reset => Untouched()
  }

  function Run<K>(c: EdgeChange<K>, ops: seq<EdgeOp<K>>): EdgeChange<K> {
    if ops == [] then c else Step(Run(c, ops[..|ops| - 1]), ops[|ops| - 1])
  }

  /** What the emitted update does to the edge set, clears being applied before adds. */
  function Effect<K>(c: EdgeChange<K>, old_: set<K>): set<K> {
    (if c.cleared then {} else old_ - c.removed.GetOr({})) + Pending(c)
  }

  // ---- The two reference readings of a run of calls ----

  /** The calls taken one after another; Reset goes back to the stored edge set. */
  function Sequential<K>(ops: seq<EdgeOp<K>>, old_: set<K>): set<K> {
    if ops == [] then old_
    else
      var before := Sequential(ops[..|ops| - 1], old_);
      match ops[|ops| - 1]
      case Add(ids) => before + ToSet(ids)
      case Remove(ids) => before - ToSet(ids)
      case Clear => {}
      case Reset => old_
  }

  /** The calls since the last Reset. */
  function SinceReset<K>(ops: seq<EdgeOp<K>>): seq<EdgeOp<K>> {
    if ops == [] then []
    else if ops[|ops| - 1].Reset? then []
    else SinceReset(ops[..|ops| - 1]) + [ops[|ops| - 1]]
  }

  function Clears<K>(ops: seq<EdgeOp<K>>): seq<EdgeOp<K>> {
    if ops == [] then []
    else Clears(ops[..|ops| - 1]) + (if ops[|ops| - 1].Clear? then [Clear] else [])
  }

  function NonClears<K>(ops: seq<EdgeOp<K>>): seq<EdgeOp<K>> {
    if ops == [] then []
    else NonClears(ops[..|ops| - 1]) + (if ops[|ops| - 1].Clear? then [] else [ops[|ops| - 1]])
  }

  /** The same calls with every Clear moved to the front. */
  function Hoisted<K>(ops: seq<EdgeOp<K>>): seq<EdgeOp<K>> {
    Clears(SinceReset(ops)) + NonClears(SinceReset(ops))
  }

  /** The calls after the last Clear, or None when there was no Clear. */
  function SinceClear<K>(ops: seq<EdgeOp<K>>): Option<seq<EdgeOp<K>>> {
    if ops == [] then None
    else if ops[|ops| - 1].Clear? then Some([])
    else
      match SinceClear(ops[..|ops| - 1])
      case None => None
      case Some(s) => Some(s + [ops[|ops| - 1]])
  }

  predicate Mentions<K(==)>(op: EdgeOp<K>, id: K) {
    (op.Add? || op.Remove?) && id in op.ids
  }

  predicate Mentioned<K(==)>(ops: seq<EdgeOp<K>>, id: K) {
    exists i :: 0 <= i < |ops| && Mentions(ops[i], id)
  }

  /** The calls up to, and without, the last Clear. */
  function BeforeClear<K>(ops: seq<EdgeOp<K>>): (r: seq<EdgeOp<K>>)
    requires SinceClear(ops).Some?
    decreases |ops|
  {
    if ops[|ops| - 1].Clear? then ops[..|ops| - 1] else BeforeClear(ops[..|ops| - 1])
  }

  /**
   * Every id that was pending when Clear was last called (since the last Reset)
   * is named again by a later Add or Remove.
   */
  ghost predicate ClearsAreSuperseded<K(!new)>(ops: seq<EdgeOp<K>>) {
    var live := SinceReset(ops);
    SinceClear(live).Some? ==>
      forall id :: id in Pending(Run(Untouched(), BeforeClear(live))) ==> Mentioned(SinceClear(live).value, id)
  }

  // ---- Lemmas ----

  lemma {:induction false} RunAppend<K>(c: EdgeChange<K>, a: seq<EdgeOp<K>>, b: seq<EdgeOp<K>>)
    ensures Run(c, a + b) == Run(Run(c, a), b)
  {
    if b == [] {
      assert a + b == a;
    } else {
      assert (a + b)[..|a + b| - 1] == a + b[..|b| - 1];
      RunAppend(c, a, b[..|b| - 1]);
    }
  }

  lemma {:induction false} SequentialAppend<K>(a: seq<EdgeOp<K>>, b: seq<EdgeOp<K>>, old_: set<K>)
    requires forall i :: 0 <= i < |b| ==> !b[i].Reset?
    ensures Sequential(a + b, old_) == Sequential(b, Sequential(a, old_))
  {
    if b == [] {
      assert a + b == a;
    } else {
      assert (a + b)[..|a + b| - 1] == a + b[..|b| - 1];
      SequentialAppend(a, b[..|b| - 1], old_);
    }
  }

  /** A run only depends on the calls since the last Reset. */
  lemma {:induction false} OnlySinceReset<K>(ops: seq<EdgeOp<K>>, old_: set<K>)
    ensures Run(Untouched(), ops) == Run(Untouched(), SinceReset(ops))
    ensures Sequential(ops, old_) == Sequential(SinceReset(ops), old_)
    ensures forall i :: 0 <= i < |SinceReset(ops)| ==> !SinceReset(ops)[i].Reset?
  {
    if ops != [] && !ops[|ops| - 1].Reset? {
      OnlySinceReset(ops[..|ops| - 1], old_);
      var s := SinceReset(ops);
      assert s[..|s| - 1] == SinceReset(ops[..|ops| - 1]);
    }
  }

  /** Without Reset, the change set reads as the calls with the Clears in front. */
  lemma {:induction false} EffectWithoutReset<K>(ops: seq<EdgeOp<K>>, old_: set<K>)
    requires forall i :: 0 <= i < |ops| ==> !ops[i].Reset?
    ensures Effect(Run(Untouched(), ops), old_) == Sequential(NonClears(ops), if Clears(ops) == [] then old_ else {})
    ensures Run(Untouched(), ops).cleared <==> Clears(ops) != []
    ensures forall i :: 0 <= i < |NonClears(ops)| ==> !NonClears(ops)[i].Reset?
  {
    if ops != [] {
      var init, last := ops[..|ops| - 1], ops[|ops| - 1];
      EffectWithoutReset(init, old_);
      EffectWithoutReset(init, {});
      if !last.Clear? {
        assert NonClears(ops)[..|NonClears(ops)| - 1] == NonClears(init);
      } else {
        assert NonClears(ops) == NonClears(init);
        PendingIsEffectOnNothing(init);
      }
    }
  }

  /** What is pending is what the change set does to an empty edge set. */
  lemma PendingIsEffectOnNothing<K>(ops: seq<EdgeOp<K>>)
    ensures Effect(Run(Untouched(), ops), {}) == Pending(Run(Untouched(), ops))
  {
    assert {} - Run<K>(Untouched(), ops).removed.GetOr({}) == {};
  }

  lemma {:induction false} ClearsOnly<K>(ops: seq<EdgeOp<K>>, old_: set<K>)
    ensures Sequential(Clears(ops), old_) == if Clears(ops) == [] then old_ else {}
  {
    if ops != [] {
      var init := ops[..|ops| - 1];
      ClearsOnly(init, old_);
      if ops[|ops| - 1].Clear? {
        assert Clears(ops)[..|Clears(ops)| - 1] == Clears(init);
      } else {
        assert Clears(ops) == Clears(init);
      }
    }
  }

  /**
   * MAIN 1: for every run of calls and every stored edge set, the emitted update
   * does what the calls since the last Reset do one after another, except that
   * all Clears happen first.
   */
  lemma EffectIsHoistedFold<K>(ops: seq<EdgeOp<K>>, old_: set<K>)
    ensures Effect(Run(Untouched(), ops), old_) == Sequential(Hoisted(ops), old_)
  {
    var live := SinceReset(ops);
    OnlySinceReset(ops, old_);
    EffectWithoutReset(live, old_);
    ClearsOnly(live, old_);
    SequentialAppend(Clears(live), NonClears(live), old_);
  }

  /** The last call naming an id decides whether it is pending. */
  lemma {:induction false} LastMentionDecides<K>(c: EdgeChange<K>, ops: seq<EdgeOp<K>>, id: K)
    requires forall i :: 0 <= i < |ops| ==> ops[i].Add? || ops[i].Remove?
    ensures id in Pending(Run(c, ops)) <==>
            if Mentioned(ops, id) then id in Sequential(ops, {}) else id in Pending(c)
    ensures !Mentioned(ops, id) ==> id !in Sequential(ops, {})
  {
    if ops != [] {
      var init, last := ops[..|ops| - 1], ops[|ops| - 1];
      LastMentionDecides(c, init, id);
      assert Mentioned(ops, id) <==> Mentioned(init, id) || Mentions(last, id) by {
        if Mentions(last, id) { assert Mentions(ops[|ops| - 1], id); }
        if Mentioned(init, id) {
          var i :| 0 <= i < |init| && Mentions(init[i], id);
          assert Mentions(ops[i], id);
        }
      }
    }
  }

  /** Splitting a run at its last Clear. */
  lemma {:induction false} SplitAtClear<K>(ops: seq<EdgeOp<K>>)
    requires SinceClear(ops).Some?
    requires forall i :: 0 <= i < |ops| ==> !ops[i].Reset?
    ensures ops == BeforeClear(ops) + [Clear] + SinceClear(ops).value
    ensures forall i :: 0 <= i < |SinceClear(ops).value| ==> SinceClear(ops).value[i].Add? || SinceClear(ops).value[i].Remove?
  {
    if !ops[|ops| - 1].Clear? {
      SplitAtClear(ops[..|ops| - 1]);
    }
  }

  lemma {:induction false} NoClearMeansPlain<K>(ops: seq<EdgeOp<K>>)
    requires SinceClear(ops).None?
    ensures Clears(ops) == [] && NonClears(ops) == ops
  {
    if ops != [] {
      NoClearMeansPlain(ops[..|ops| - 1]);
    }
  }

  /**
   * MAIN 2: for every run of calls and every stored edge set, the emitted update
   * agrees with the calls read one after another exactly when each id that was
   * pending at the last Clear is named again after it.
   */
  lemma SequentialIffClearsSuperseded<K(!new)>(ops: seq<EdgeOp<K>>, old_: set<K>)
    ensures Effect(Run(Untouched(), ops), old_) == Sequential(ops, old_) <==> ClearsAreSuperseded(ops)
  {
    var live := SinceReset(ops);
    OnlySinceReset(ops, old_);
    if SinceClear(live).None? {
      EffectWithoutReset(live, old_);
      NoClearMeansPlain(live);
    } else {
      SplitAtClear(live);
      ThroughClear(BeforeClear(live), SinceClear(live).value, old_);
    }
  }

  /** What calls around a Clear come to: the later ones decide, and earlier pending ids show through. */
  lemma ThroughClear<K(!new)>(before: seq<EdgeOp<K>>, after: seq<EdgeOp<K>>, old_: set<K>)
    requires forall i :: 0 <= i < |after| ==> after[i].Add? || after[i].Remove?
    ensures var run := Run(Untouched(), before + [Clear] + after);
            && run.cleared
            && forall id :: id in Pending(run) <==>
                 if Mentioned(after, id) then id in Sequential(after, {}) else id in Pending(Run(Untouched(), before))
    ensures Sequential(before + [Clear] + after, old_) == Sequential(after, {})
    ensures forall id :: !Mentioned(after, id) ==> id !in Sequential(after, {})
  {
    var atClear := Run(Untouched(), before + [Clear]);
    RunAppend(Untouched(), before + [Clear], after);
    SequentialAppend(before + [Clear], after, old_);
    assert (before + [Clear])[..|before|] == before;
    assert atClear == Run(Untouched(), before).(cleared := true);
    ClearedStays(atClear, after);
    forall id
      ensures id in Pending(Run(atClear, after)) <==>
              if Mentioned(after, id) then id in Sequential(after, {}) else id in Pending(Run(Untouched(), before))
    {
      LastMentionDecides(atClear, after, id);
    }
    forall id | !Mentioned(after, id) ensures id !in Sequential(after, {}) {
      LastMentionDecides(atClear, after, id);
    }
  }

  lemma {:induction false} ClearedStays<K>(c: EdgeChange<K>, ops: seq<EdgeOp<K>>)
    requires c.cleared && forall i :: 0 <= i < |ops| ==> !ops[i].Reset?
    ensures Run(c, ops).cleared
  {
    if ops != [] {
      ClearedStays(c, ops[..|ops| - 1]);
    }
  }

  /** An Add followed by a Clear keeps the added id: the two readings differ. */
  lemma AddThenClearKeepsTheId<K>(id: K, old_: set<K>)
    ensures Effect(Run(Untouched(), [Add([id]), Clear]), old_) == {id}
    ensures Sequential([Add([id]), Clear], old_) == {}
  {
    var ops := [Add([id]), Clear];
    assert ops[..1] == [Add([id])] && ops[..1][..0] == [];
    assert Run(Untouched(), ops[..1]) == Step(Run(Untouched(), ops[..1][..0]), Add([id]));
    assert {} + ToSet([id]) == {id};
  }

  // ---- The mutation's own calls ----

  /** The fields `wallets`, `removedwallets` and `clearedwallets`, and their like on other edges. */
  class EdgeFields<K(==)> {
    var added: Option<set<K>>
    var removed: Option<set<K>>
    var cleared: bool

    function Change(): EdgeChange<K>
      reads this
    {
      EdgeChange(added, removed, cleared)
    }

    constructor ()
      ensures Change() == Untouched()
    {
      added, removed, cleared := None, None, false;
    }

    method AddIDs(ids: seq<K>)
      modifies this
      ensures Change() == Step(old(Change()), Add(ids))
    {
      if added.None? {
        added := Some({});
      }
      for i := 0 to |ids|
        invariant added.Some? && added.value == Pending(old(Change())) + ToSet(ids[..i])
        invariant removed == old(removed) && cleared == old(cleared)
      {
        ToSetAppend(ids[..i], [ids[i]]);
        assert ids[..i + 1] == ids[..i] + [ids[i]];
        added := Some(added.value + {ids[i]});
      }
      assert ids[..|ids|] == ids;
    }

    method RemoveIDs(ids: seq<K>)
      modifies this
      ensures Change() == Step(old(Change()), Remove(ids))
    {
      if removed.None? {
        removed := Some({});
      }
      for i := 0 to |ids|
        invariant removed.Some? && removed.value == old(removed).GetOr({}) + ToSet(ids[..i])
        invariant added.Some? <==> old(added).Some?
        invariant added.Some? ==> added.value == old(added).value - ToSet(ids[..i])
        invariant cleared == old(cleared)
      {
        ToSetAppend(ids[..i], [ids[i]]);
        assert ids[..i + 1] == ids[..i] + [ids[i]];
        // Deleting from a nil map does nothing.
        if added.Some? {
          added := Some(added.value - {ids[i]});
        }
        removed := Some(removed.value + {ids[i]});
      }
      assert ids[..|ids|] == ids;
    }

    method ClearEdge()
      modifies this
      ensures Change() == Step(old(Change()), Clear)
    {
      cleared := true;
    }

    method ResetEdge()
      modifies this
      ensures Change() == Step(old(Change()), Reset)
    {
      added := None;
      cleared := false;
      removed := None;
    }

    method IDs() returns (ids: seq<K>)
      ensures ToSet(ids) == Pending(Change()) && NoDuplicates(ids)
      ensures |ids| > 0 <==> Pending(Change()) != {}
    {
      ids := RangeKeys(added.GetOr({}));
    }

    method RemovedIDs() returns (ids: seq<K>)
      ensures ToSet(ids) == removed.GetOr({}) && NoDuplicates(ids)
      ensures |ids| > 0 <==> removed.GetOr({}) != {}
    {
      ids := RangeKeys(removed.GetOr({}));
    }

    /** Any run of calls leaves the change set that Run says. */
    method Apply(ops: seq<EdgeOp<K>>)
      modifies this
      ensures Change() == Run(old(Change()), ops)
    {
      for i := 0 to |ops|
        invariant Change() == Run(old(Change()), ops[..i])
      {
        assert ops[..i + 1][..i] == ops[..i];
        match ops[i]
        case Add(ids) => AddIDs(ids);
        case Remove(ids) => RemoveIDs(ids);
        case Clear => ClearEdge();
        case Reset => ResetEdge();
      }
      assert ops[..|ops|] == ops;
    }
  }
}
