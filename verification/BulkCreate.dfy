/**
 * Creating many unseal-key slots at once: one mutator per builder, each calling the next,
 * the last one running the single batch insert for all of them.
 */
module BulkChain {
  import opened Common

  newtype byte = x: int | 0 <= x < 256

  type Bytes = seq<byte>

  /** The fields that a slot mutation may have set. */
  datatype Content = Content(id: Option<int>, wrappedKey: Option<Bytes>, serverKeyMaterial: Option<Bytes>)

  datatype Error =
    | MissingField(name: string)
    | InvalidId
    | FromHook(code: int)
    | FromDatabase(cause: EntError)
    | Panic // a crash, such as the type assertion on a generated id meeting an id of another type

  /** What a hook returns, given what next returned. */
  type After = Option<Error> -> Option<Error>

  /** What one hook does with the mutation it is given, and hence with the rest of the chain. */
  datatype Verdict =
    | Reject(e: Error)                                   // returns an error, never calls next
    | Pass(edited: Content, after: After)                // edits it in place, calls next with it
    | PassOther(edited: Content, other: Content, after: After)  // calls next with a mutation of its own
    | Skip                                               // returns success, never calls next

  type Hook = Content -> Verdict

  /** A hook's last word; a crash passes it by. */
  function LastWord(after: After, r: Option<Error>): Option<Error> {
    if r == Some(Panic) then r else after(r)
  }

  /**
   * How a builder's turn goes under its hooks: `own` is what its original mutation then holds. Either
   * it never gets to the check and returns `r`, or `passed` goes on, and `late` is what the hooks
   * make of the result on the way back.
   */
  datatype Entry =
    | Stopped(own: Content, r: Option<Error>)
    | Entered(own: Content, passed: Content, same: bool, late: After)

  function Compose(after: After, late: After): After {
    (r: Option<Error>) => LastWord(after, LastWord(late, r))
  }

  function WithAfter(entry: Entry, after: After): Entry {
    match entry
    case Stopped(own, r) => Stopped(own, LastWord(after, r))
    case Entered(own, passed, same, late) =>
      Entered(own, passed, same, Compose(after, late))
  }

  function Enter(hooks: seq<Hook>, own: Content, passed: Content, same: bool): Entry {
    if hooks == [] then Entered(own, passed, same, (r: Option<Error>) => r)
    else
      match hooks[0](passed)
      case Reject(e) => Stopped(own, Some(e))
      case Skip => Stopped(own, None)
      case Pass(edited, after) =>
        WithAfter(Enter(hooks[1..], if same then edited else own, edited, same), after)
      case PassOther(edited, other, after) =>
        WithAfter(Enter(hooks[1..], if same then edited else own, other, false), after)
  }

  /** check(): both keys are required, an explicit id must be valid. */
  function Check(c: Content, validId: int -> bool): (r: Option<Error>)
    ensures r.None? <==> c.wrappedKey.Some? && c.serverKeyMaterial.Some? && (c.id.Some? ==> validId(c.id.value))
    ensures c.wrappedKey.None? <==> r == Some(MissingField("wrapped_key"))
    ensures c.wrappedKey.Some? && c.serverKeyMaterial.None? <==> r == Some(MissingField("server_key_material"))
  {
    if c.wrappedKey.None? then Some(MissingField("wrapped_key"))
    else if c.serverKeyMaterial.None? then Some(MissingField("server_key_material"))
    else if c.id.Some? && !validId(c.id.value) then Some(InvalidId)
    else None
  }

  datatype IdValue = NoId | GoInt(i: int) | Int64(i: int)

  datatype CreateSpec = CreateSpec(id: IdValue, fields: seq<(string, Bytes)>)

  datatype Node = Node(id: int, wrappedKey: Bytes, serverKeyMaterial: Bytes)

  function SpecOf(c: Content): CreateSpec {
    CreateSpec(if c.id.Some? then GoInt(c.id.value) else NoId,
               (if c.wrappedKey.Some? then [("wrapped_key", c.wrappedKey.value)] else [])
               + (if c.serverKeyMaterial.Some? then [("server_key_material", c.serverKeyMaterial.value)] else []))
  }

  function NodeOf(c: Content): Node {
    Node(c.id.GetOr(0), c.wrappedKey.GetOr([]), c.serverKeyMaterial.GetOr([]))
  }

  // ---- What a specification inserts, and what a node holds ----

  /** The row that the columns of a specification make, written in order. */
  function Written(fields: seq<(string, Bytes)>): map<string, Bytes> {
    if fields == [] then map[] else Written(fields[..|fields| - 1])[fields[|fields| - 1].0 := fields[|fields| - 1].1]
  }

  function Column(row: map<string, Bytes>, name: string): Option<Bytes> {
    if name in row then Some(row[name]) else None
  }

  /** The specification writes each key of the content into its own column, if it is set, and nothing else. */
  ghost predicate Inserts(spec: CreateSpec, c: Content) {
    var row := Written(spec.fields);
    && Column(row, "wrapped_key") == c.wrappedKey
    && Column(row, "server_key_material") == c.serverKeyMaterial
    && row.Keys <= {"wrapped_key", "server_key_material"}
  }

  /** The node has the keys that reading the row gives. */
  ghost predicate ReadBack(node: Node, row: map<string, Bytes>) {
    && node.wrappedKey == Column(row, "wrapped_key").GetOr([])
    && node.serverKeyMaterial == Column(row, "server_key_material").GetOr([])
  }

  /**
   * A builder's two slots: the row inserted for the content that its hooks passed on, the node read
   * back from that row, and the ids: the explicit one, or else the generated one, which the node gets
   * once the turn is done.
   */
  ghost predicate Slot(spec: Option<CreateSpec>, node: Option<Node>, c: Content, done: bool, generated: Option<int>) {
    && spec.Some? && node.Some? && Inserts(spec.value, c) && ReadBack(node.value, Written(spec.value.fields))
    && spec.value.id == (if c.id.Some? then GoInt(c.id.value) else if generated.Some? then Int64(generated.value) else NoId)
    && node.value.id == if c.id.Some? then c.id.value else if done && generated.Some? then generated.value else 0
  }

  /** One specification for each builder, in order, with its explicit id or none. */
  ghost predicate BatchOf(batch: seq<CreateSpec>, es: seq<Entry>) {
    && |batch| == |es|
    && forall k :: 0 <= k < |es| ==>
         && es[k].Entered? && Inserts(batch[k], es[k].passed)
         && batch[k].id == if es[k].passed.id.Some? then GoInt(es[k].passed.id.value) else NoId
  }

  /** The node of a content: both keys, and the explicit or else the generated id. */
  ghost predicate ReadAs(node: Option<Node>, c: Content, generated: int) {
    && node.Some? && node.value.wrappedKey == c.wrappedKey.GetOr([])
    && node.value.serverKeyMaterial == c.serverKeyMaterial.GetOr([])
    && node.value.id == c.id.GetOr(generated)
  }

  /** Every builder's node, from the content that its hooks passed on and the generated ids. */
  ghost predicate AllRead(es: seq<Entry>, nodes: seq<Option<Node>>, generated: Option<nat -> int>) {
    && |nodes| == |es| && generated.Some?
    && forall k :: 0 <= k < |es| ==> es[k].Entered? && ReadAs(nodes[k], es[k].passed, generated.value(k))
  }

  /** A slot of a finished turn reads as the content. */
  lemma SlotHolds(spec: Option<CreateSpec>, node: Option<Node>, c: Content, done: bool, generated: Option<int>)
    requires Slot(spec, node, c, done, generated) && done && generated.Some?
    ensures ReadAs(node, c, generated.value)
  {
  }

  function IdAt(generated: Option<nat -> int>, k: nat): Option<int> {
    if generated.Some? then Some(generated.value(k)) else None
  }

  /** MAIN: what createSpec builds inserts the mutation, and the node is the row read back. */
  lemma SpecInserts(c: Content)
    ensures Inserts(SpecOf(c), c) && ReadBack(NodeOf(c), Written(SpecOf(c).fields))
    ensures SpecOf(c).id == (if c.id.Some? then GoInt(c.id.value) else NoId) && NodeOf(c).id == c.id.GetOr(0)
  {
    var first: seq<(string, Bytes)> := if c.wrappedKey.Some? then [("wrapped_key", c.wrappedKey.value)] else [];
    assert Written(first) == if c.wrappedKey.Some? then map["wrapped_key" := c.wrappedKey.value] else map[] by {
      if c.wrappedKey.Some? {
        assert first[..0] == [];
      }
    }
    var fields := SpecOf(c).fields;
    if c.serverKeyMaterial.Some? {
      assert fields[..|fields| - 1] == first;
    } else {
      assert fields == first;
    }
  }

  /** The id conversion after the batch panics on an explicit id of zero. */
  predicate Panics(c: Content) {
    c.id == Some(0)
  }

  /** This builder's turn gets as far as createSpec. */
  predicate Proceeds(e: Entry, validId: int -> bool) {
    e.Entered? && Check(e.own, validId).None?
  }

  /** What a turn that stops before createSpec returns. */
  function Stop(e: Entry, validId: int -> bool): Option<Error>
    requires !Proceeds(e, validId)
  {
    match e
    case Stopped(_, r) => r
    case Entered(own, _, _, late) => LastWord(late, Check(own, validId))
  }

  /** What a turn that went through createSpec returns, given what the rest of the chain did. */
  function Back(e: Entry, r: Option<Error>): Option<Error>
    requires e.Entered?
  {
    LastWord(e.late, if r.None? && Panics(e.passed) then Some(Panic) else r)
  }

  /** What running the chain from one builder on amounts to. */
  datatype Run = Run(err: Option<Error>, batched: bool, marked: set<nat>)

  /** The mutator at position i, or past the last one the batch; `answer` is its error, if any. */
  function Chain(es: seq<Entry>, validId: int -> bool, answer: Option<Error>, i: nat): Run
    requires i <= |es|
    decreases |es| - i
  {
    if i == |es| then Run(answer, true, {})
    else if !Proceeds(es[i], validId) then Run(Stop(es[i], validId), false, {})
    else
      var inner := Chain(es, validId, answer, i + 1);
      Run(Back(es[i], inner.err), inner.batched, inner.marked + (if inner.err.None? && !Panics(es[i].passed) then {i} else {}))
  }

  lemma {:induction false} MarkedFrom(es: seq<Entry>, validId: int -> bool, answer: Option<Error>, i: nat)
    requires i <= |es|
    ensures forall k :: k in Chain(es, validId, answer, i).marked ==> i <= k < |es|
    decreases |es| - i
  {
    if i < |es| {
      MarkedFrom(es, validId, answer, i + 1);
    }
  }

  /** The chain from i on depends only on the entries from i on. */
  lemma {:induction false} SameTail(es: seq<Entry>, es': seq<Entry>, validId: int -> bool, answer: Option<Error>, i: nat)
    requires i <= |es| == |es'| && forall k :: i <= k < |es| ==> es[k] == es'[k]
    ensures Chain(es, validId, answer, i) == Chain(es', validId, answer, i)
    ensures FirstStop(es, validId, i) == FirstStop(es', validId, i)
    decreases |es| - i
  {
    if i < |es| {
      SameTail(es, es', validId, answer, i + 1);
    }
  }

  /** One more hook around a turn has the last word on it. */
  lemma LaterWord(e: Entry, after: After, validId: int -> bool)
    ensures Proceeds(WithAfter(e, after), validId) <==> Proceeds(e, validId)
    ensures !Proceeds(e, validId) ==> Stop(WithAfter(e, after), validId) == LastWord(after, Stop(e, validId))
    ensures e.Entered? ==> WithAfter(e, after).Entered? && WithAfter(e, after).passed == e.passed
    ensures e.Entered? ==> forall r :: Back(WithAfter(e, after), r) == LastWord(after, Back(e, r))
  {
  }

  // ---- Closed form ----

  /** The first builder from i on whose turn stops before createSpec, or the number of builders. */
  function FirstStop(es: seq<Entry>, validId: int -> bool, i: nat): (c: nat)
    requires i <= |es|
    ensures i <= c <= |es|
    ensures c < |es| ==> !Proceeds(es[c], validId)
    ensures forall k :: i <= k < c ==> Proceeds(es[k], validId)
    decreases |es| - i
  {
    if i == |es| || !Proceeds(es[i], validId) then i else FirstStop(es, validId, i + 1)
  }

  /** What a hook around turn i makes of the result shows in the result and nowhere else. */
  lemma HookHasTheLastWord(i: nat, es': seq<Entry>, es: seq<Entry>, validId: int -> bool, after: After, answer: Option<Error>)
    requires i < |es| == |es'| && es == es'[i := WithAfter(es'[i], after)]
    ensures FirstStop(es, validId, i) == FirstStop(es', validId, i)
    ensures var run := Chain(es', validId, answer, i);
            Chain(es, validId, answer, i) == run.(err := LastWord(after, run.err))
  {
    SameTail(es, es', validId, answer, i + 1);
    var e', e := es'[i], es[i];
    LaterWord(e', after, validId);
    OneTurn(es, validId, answer, i);
    OneTurn(es', validId, answer, i);
    hide WithAfter, LastWord, Back, Stop, Proceeds, Chain, FirstStop;
  }

  lemma OneTurn(es: seq<Entry>, validId: int -> bool, answer: Option<Error>, i: nat)
    requires i < |es|
    ensures FirstStop(es, validId, i) == if Proceeds(es[i], validId) then FirstStop(es, validId, i + 1) else i
    ensures !Proceeds(es[i], validId) ==> Chain(es, validId, answer, i) == Run(Stop(es[i], validId), false, {})
    ensures Proceeds(es[i], validId) ==>
              var inner := Chain(es, validId, answer, i + 1);
              Chain(es, validId, answer, i) ==
              Run(Back(es[i], inner.err), inner.batched,
                  inner.marked + (if inner.err.None? && !Panics(es[i].passed) then {i} else {}))
  {
  }

  /** The slots of every builder whose turn got as far as createSpec. */
  ghost predicate Slots(es: seq<Entry>, validId: int -> bool, answer: Option<Error>, generated: Option<nat -> int>,
                        specs: seq<Option<CreateSpec>>, nodes: seq<Option<Node>>)
    requires |es| == |specs| == |nodes|
  {
    forall k :: 0 <= k < FirstStop(es, validId, 0) ==>
      Slot(specs[k], nodes[k], es[k].passed, k in Chain(es, validId, answer, 0).marked, IdAt(generated, k))
  }

  /** What happens at the far end of the descent: a stop, or the batch. */
  function FarEnd(es: seq<Entry>, validId: int -> bool, answer: Option<Error>, i: nat): Option<Error>
    requires i <= |es|
  {
    var c := FirstStop(es, validId, i);
    if c < |es| then Stop(es[c], validId) else answer
  }

  /** The far end's result on its way back through the turns from c - 1 down to i. */
  function Outcome(es: seq<Entry>, end: Option<Error>, i: nat, c: nat): Option<Error>
    requires i <= c <= |es| && forall k :: i <= k < c ==> es[k].Entered?
    decreases c - i
  {
    if i == c then end else Back(es[i], Outcome(es, end, i + 1, c))
  }

  /**
   * MAIN: the chain in closed form, for every list of builders and hooks. The batch runs iff no turn
   * stops early; the result is that of the far end, passed back through the turns; and exactly those
   * builders are marked that are handed a success and do not crash on it.
   */
  lemma {:induction false} ChainMeaning(es: seq<Entry>, validId: int -> bool, answer: Option<Error>, i: nat)
    requires i <= |es|
    ensures var run := Chain(es, validId, answer, i);
            var c := FirstStop(es, validId, i);
            var end := FarEnd(es, validId, answer, i);
            && (run.batched <==> c == |es|)
            && run.err == Outcome(es, end, i, c)
            && forall k: nat :: k in run.marked <==>
                 i <= k < c && Outcome(es, end, k + 1, c).None? && !Panics(es[k].passed)
    decreases |es| - i
  {
    if i < |es| && Proceeds(es[i], validId) {
      ChainMeaning(es, validId, answer, i + 1);
    }
  }

  /** The result becomes a success at position d: it is one at the far end, or an error is dropped there. */
  predicate TurnsGood(es: seq<Entry>, end: Option<Error>, d: nat, c: nat)
    requires d <= c <= |es| && forall k :: d <= k < c ==> es[k].Entered?
  {
    if d == c then end.None?
    else
      var r := Outcome(es, end, d + 1, c);
      r.Some? && Back(es[d], r).None?
  }

  /** Handed a success, the turn returns one: the id conversion does not crash, and no hook objects. */
  predicate LetsThrough(e: Entry)
    requires e.Entered?
  {
    Back(e, None).None?
  }

  /**
   * MAIN: when the chain succeeds. The result turned into a success somewhere, because the batch
   * succeeded, because a hook returned success without calling next, or because one dropped the
   * error it was given; and every turn further out lets a success through.
   */
  lemma {:induction false} SuccessIff(es: seq<Entry>, end: Option<Error>, i: nat, c: nat)
    requires i <= c <= |es| && forall k :: i <= k < c ==> es[k].Entered?
    ensures Outcome(es, end, i, c).None? <==>
            exists d :: i <= d <= c && TurnsGood(es, end, d, c) && forall k :: i <= k < d ==> LetsThrough(es[k])
    decreases c - i
  {
    if i == c {
      if end.None? {
        assert TurnsGood(es, end, c, c);
      }
    } else {
      SuccessIff(es, end, i + 1, c);
      if Outcome(es, end, i, c).None? {
        if Outcome(es, end, i + 1, c).Some? {
          assert TurnsGood(es, end, i, c);
        } else {
          var d :| i + 1 <= d <= c && TurnsGood(es, end, d, c) && forall k :: i + 1 <= k < d ==> LetsThrough(es[k]);
          assert LetsThrough(es[i]);
        }
      }
      if d :| i <= d <= c && TurnsGood(es, end, d, c) && forall k :: i <= k < d ==> LetsThrough(es[k]) {
        if d > i {
          assert Outcome(es, end, i + 1, c).None?;
        }
      }
    }
  }

  /** The result became a success at position d, and the next turn out does not crash on it. */
  predicate Unearned(es: seq<Entry>, validId: int -> bool, answer: Option<Error>, d: nat)
    requires d <= FirstStop(es, validId, 0)
  {
    var c := FirstStop(es, validId, 0);
    var end := FarEnd(es, validId, answer, 0);
    && TurnsGood(es, end, d, c)
    && (d > 0 ==> !Panics(es[d - 1].passed))
  }

  /**
   * MAIN: without a successful batch, success is reported or some mutation is marked done iff, where
   * the chain was handed back, a hook returned success without calling next or dropped the error it
   * was given, and the turn outside it does not crash on that success.
   */
  lemma UnearnedIff(es: seq<Entry>, validId: int -> bool, answer: Option<Error>)
    requires FirstStop(es, validId, 0) == |es| ==> answer.Some?
    ensures var run := Chain(es, validId, answer, 0);
            run.err.None? || run.marked != {} <==>
            exists d :: 0 <= d <= FirstStop(es, validId, 0) && Unearned(es, validId, answer, d)
  {
    var run := Chain(es, validId, answer, 0);
    var c, end := FirstStop(es, validId, 0), FarEnd(es, validId, answer, 0);
    ChainMeaning(es, validId, answer, 0);
    if run.err.None? {
      SuccessIff(es, end, 0, c);
      var d :| 0 <= d <= c && TurnsGood(es, end, d, c) && forall k :: 0 <= k < d ==> LetsThrough(es[k]);
      assert d > 0 ==> LetsThrough(es[d - 1]);
      assert Unearned(es, validId, answer, d);
    } else if k :| k in run.marked {
      UnearnedFrom(es, validId, answer, k);
    }
    if d :| 0 <= d <= c && Unearned(es, validId, answer, d) {
      if d > 0 {
        assert d - 1 in run.marked;
      }
    }
  }

  /** A marked builder was handed a success, which became one further in. */
  lemma UnearnedFrom(es: seq<Entry>, validId: int -> bool, answer: Option<Error>, k: nat)
    requires k in Chain(es, validId, answer, 0).marked
    ensures exists d :: 0 <= d <= FirstStop(es, validId, 0) && Unearned(es, validId, answer, d)
  {
    var c, end := FirstStop(es, validId, 0), FarEnd(es, validId, answer, 0);
    ChainMeaning(es, validId, answer, 0);
    SuccessIff(es, end, k + 1, c);
    var d :| k + 1 <= d <= c && TurnsGood(es, end, d, c) && forall j :: k + 1 <= j < d ==> LetsThrough(es[j]);
    assert d > k + 1 ==> LetsThrough(es[d - 1]);
    assert Unearned(es, validId, answer, d);
  }

  /** Success without a successful batch: the same, with every turn further out letting it through. */
  lemma SuccessWithoutInsertIff(es: seq<Entry>, validId: int -> bool, answer: Option<Error>)
    requires FirstStop(es, validId, 0) == |es| ==> answer.Some?
    ensures var c, end := FirstStop(es, validId, 0), FarEnd(es, validId, answer, 0);
            Chain(es, validId, answer, 0).err.None? <==>
            exists d :: 0 <= d <= c && TurnsGood(es, end, d, c) && forall k :: 0 <= k < d ==> LetsThrough(es[k])
  {
    ChainMeaning(es, validId, answer, 0);
    SuccessIff(es, FarEnd(es, validId, answer, 0), 0, FirstStop(es, validId, 0));
  }

  // ---- Hooks that keep errors ----

  ghost predicate Keeps(after: After) {
    forall r: Option<Error> :: r.Some? ==> after(r).Some?
  }

  /** A hook that calls next or returns an error, and turns no error into a success. */
  ghost predicate KeepsErrors(hook: Hook) {
    forall c ::
      match hook(c)
      case Reject(_) => true
      case Skip => false
      case Pass(_, after) => Keeps(after)
      case PassOther(_, _, after) => Keeps(after)
  }

  ghost predicate Honest(e: Entry) {
    match e
    case Stopped(_, r) => r.Some?
    case Entered(_, _, _, late) => Keeps(late)
  }

  lemma {:induction false} HonestHooks(hooks: seq<Hook>, own: Content, passed: Content, same: bool)
    requires forall k :: 0 <= k < |hooks| ==> KeepsErrors(hooks[k])
    ensures Honest(Enter(hooks, own, passed, same))
  {
    if hooks != [] {
      assert KeepsErrors(hooks[0]);
      match hooks[0](passed)
      case Pass(edited, after) =>
        HonestHooks(hooks[1..], if same then edited else own, edited, same);
      case PassOther(edited, other, after) =>
        HonestHooks(hooks[1..], if same then edited else own, other, false);
      case _ =>
    }
  }

  lemma {:induction false} ErrorsStay(es: seq<Entry>, end: Option<Error>, i: nat, c: nat)
    requires i <= c <= |es| && forall k :: i <= k < c ==> es[k].Entered? && Honest(es[k])
    requires end.Some?
    ensures Outcome(es, end, i, c).Some?
    decreases c - i
  {
    if i < c {
      ErrorsStay(es, end, i + 1, c);
    }
  }

  /** Every turn from k on is handed a success and lets it through. */
  predicate SuccessFrom(es: seq<Entry>, end: Option<Error>, k: nat, c: nat)
    requires k <= c <= |es| && forall j :: k <= j < c ==> es[j].Entered?
  {
    end.None? && forall j :: k <= j < c ==> Outcome(es, end, j + 1, c).None? && LetsThrough(es[j])
  }

  lemma {:induction false} SuccessStays(es: seq<Entry>, end: Option<Error>, k: nat, c: nat)
    requires k <= c <= |es| && forall j :: k <= j < c ==> es[j].Entered? && Honest(es[j])
    ensures Outcome(es, end, k, c).None? ==> SuccessFrom(es, end, k, c)
    decreases c - k
  {
    if k < c {
      SuccessStays(es, end, k + 1, c);
    }
  }

  lemma {:induction false} AllLetThrough(es: seq<Entry>, k: nat)
    requires k <= |es| && forall j :: k <= j < |es| ==> es[j].Entered? && LetsThrough(es[j])
    ensures Outcome(es, None, k, |es|).None?
    decreases |es| - k
  {
    if k < |es| {
      AllLetThrough(es, k + 1);
    }
  }

  lemma Unsuccessful(es: seq<Entry>, validId: int -> bool, answer: Option<Error>)
    requires FarEnd(es, validId, answer, 0).Some? && forall k :: 0 <= k < |es| ==> Honest(es[k])
    ensures var run := Chain(es, validId, answer, 0); run.err.Some? && run.marked == {}
  {
    var c, end := FirstStop(es, validId, 0), FarEnd(es, validId, answer, 0);
    ChainMeaning(es, validId, answer, 0);
    forall k | 0 <= k <= c ensures Outcome(es, end, k, c).Some? {
      ErrorsStay(es, end, k, c);
    }
  }

  lemma Successful(es: seq<Entry>, validId: int -> bool, answer: Option<Error>)
    requires FarEnd(es, validId, answer, 0).None? && forall k :: 0 <= k < |es| ==> Honest(es[k])
    ensures var run := Chain(es, validId, answer, 0);
            && FirstStop(es, validId, 0) == |es|
            && (run.err.None? <==> forall k :: 0 <= k < |es| ==> LetsThrough(es[k]))
            && (forall k, l :: k in run.marked && k <= l < |es| ==> l in run.marked)
            && (run.err.None? ==> forall k: nat :: k in run.marked <==> k < |es|)
  {
    var c := FirstStop(es, validId, 0);
    assert c == |es|;
    ChainMeaning(es, validId, answer, 0);
    forall k | 0 <= k <= c ensures Outcome(es, None, k, c).None? ==> SuccessFrom(es, None, k, c) {
      SuccessStays(es, None, k, c);
    }
    if forall k :: 0 <= k < |es| ==> LetsThrough(es[k]) {
      AllLetThrough(es, 0);
    }
  }

  /**
   * MAIN: all or nothing, for hooks that keep errors. The batch runs iff every check passes and every
   * hook calls next. Before it has succeeded an error is reported and no mutation is marked. After
   * that, success is reported iff every turn lets it through; then all are marked, and otherwise
   * a final stretch of the list is.
   */
  lemma AllOrNothing(es: seq<Entry>, validId: int -> bool, answer: Option<Error>)
    requires es != [] && forall k :: 0 <= k < |es| ==> Honest(es[k])
    ensures var run := Chain(es, validId, answer, 0);
            && (run.batched <==> forall k :: 0 <= k < |es| ==> Proceeds(es[k], validId))
            && (!run.batched || answer.Some? ==> run.err.Some? && run.marked == {})
            && (run.err.None? <==> run.batched && answer.None? && forall k :: 0 <= k < |es| ==> LetsThrough(es[k]))
            && (forall k, l :: k in run.marked && k <= l < |es| ==> l in run.marked)
            && (run.err.None? ==> forall k: nat :: k in run.marked <==> k < |es|)
  {
    ChainMeaning(es, validId, answer, 0);
    if FarEnd(es, validId, answer, 0).Some? {
      Unsuccessful(es, validId, answer);
    } else {
      Successful(es, validId, answer);
    }
  }

  /** A hook that drops the error of a failed batch: success is reported, and the builder before it is marked. */
  lemma DroppedError(c: Content, validId: int -> bool, e: Error)
    requires Check(c, validId).None? && !Panics(c) && e != Panic
    ensures var drop: Hook := (d: Content) => Pass(d, (r: Option<Error>) => None);
            var run := Chain([Enter([], c, c, true), Enter([drop], c, c, true)], validId, Some(e), 0);
            run == Run(None, true, {0})
  {
    var drop: Hook := (d: Content) => Pass(d, (r: Option<Error>) => None);
    var es := [Enter([], c, c, true), Enter([drop], c, c, true)];
    assert [drop][1..] == [];
    assert Chain(es, validId, Some(e), 2) == Run(Some(e), true, {});
    assert Chain(es, validId, Some(e), 1).err.None?;
  }

  // ---- What is checked, and what is created ----

  /** A builder without hooks passes its own mutation on, and leaves the result alone. */
  lemma NoHooks(c: Content)
    ensures var e := Enter([], c, c, true);
            e.Entered? && e.own == c && e.passed == c && e.same && forall r :: LastWord(e.late, r) == r
  {
  }

  /** One hook around the rest. */
  lemma OneHook(hook: Hook, rest: seq<Hook>, own: Content, passed: Content, same: bool)
    ensures Enter([hook] + rest, own, passed, same) ==
            match hook(passed)
            case Reject(e) => Stopped(own, Some(e))
            case Skip => Stopped(own, None)
            case Pass(edited, after) => WithAfter(Enter(rest, if same then edited else own, edited, same), after)
            case PassOther(edited, other, after) => WithAfter(Enter(rest, if same then edited else own, other, false), after)
  {
    assert ([hook] + rest)[1..] == rest;
  }

  /** First the one and then the other. */
  ghost predicate Follows(both: After, second: After, first: After) {
    forall r :: LastWord(both, r) == LastWord(second, LastWord(first, r))
  }

  lemma FollowsOnce(both: After, second: After, first: After, after: After)
    requires Follows(both, second, first)
    ensures Follows(Compose(after, both), Compose(after, second), first)
  {
    hide LastWord, Compose;
    forall r ensures LastWord(Compose(after, both), r) == LastWord(Compose(after, second), LastWord(first, r)) {
      assert LastWord(both, r) == LastWord(second, LastWord(first, r));
      ComposeApplies(after, both, r);
      ComposeApplies(after, second, LastWord(first, r));
    }
  }

  lemma ComposeApplies(after: After, late: After, r: Option<Error>)
    ensures LastWord(Compose(after, late), r) == LastWord(after, LastWord(late, r))
  {
  }

  /** `all` is what `outer` makes of the turn `inner`, which it goes on to unless it stops. */
  ghost predicate Wrapped(outer: Entry, inner: Entry, all: Entry) {
    match outer
    case Stopped(_, _) => all == outer
    case Entered(_, _, _, late) =>
      && (all.Stopped? <==> inner.Stopped?) && all.own == inner.own
      && (inner.Stopped? ==> all.r == LastWord(late, inner.r))
      && (inner.Entered? ==> all.passed == inner.passed && all.same == inner.same && Follows(all.late, late, inner.late))
  }

  /** How the second of two lists of hooks goes on after the first. */
  function Then(outer: Entry, b: seq<Hook>): Entry {
    match outer
    case Stopped(_, _) => outer
    case Entered(own, passed, same, _) => Enter(b, own, passed, same)
  }

  lemma WrappedOnce(outer: Entry, b: seq<Hook>, all: Entry, after: After)
    requires Wrapped(outer, Then(outer, b), all)
    ensures Wrapped(WithAfter(outer, after), Then(WithAfter(outer, after), b), WithAfter(all, after))
  {
    hide LastWord, Compose, Follows, Enter;
    var inner := Then(outer, b);
    if outer.Entered? && inner.Entered? {
      FollowsOnce(all.late, outer.late, inner.late, after);
    } else if outer.Entered? {
      ComposeApplies(after, outer.late, inner.r);
    }
  }

  lemma NoHooksBefore(b: seq<Hook>, own: Content, passed: Content, same: bool)
    ensures var outer := Enter([], own, passed, same); Wrapped(outer, Then(outer, b), Enter(b, own, passed, same))
  {
  }

  lemma StopWraps(outer: Entry, inner: Entry)
    requires outer.Stopped?
    ensures Wrapped(outer, inner, outer)
  {
  }

  /** MAIN: the first list of hooks is wrapped around the second: it goes first, and has the last word. */
  lemma {:induction false} EnterComposes(a: seq<Hook>, b: seq<Hook>, own: Content, passed: Content, same: bool)
    ensures var outer := Enter(a, own, passed, same); Wrapped(outer, Then(outer, b), Enter(a + b, own, passed, same))
    decreases |a|
  {
    hide LastWord, Compose, Follows, Wrapped, Then, WithAfter;
    if a == [] {
      assert a + b == b;
      NoHooksBefore(b, own, passed, same);
    } else {
      assert (a + b)[1..] == a[1..] + b && (a + b)[0] == a[0];
      var own1 := if same && !a[0](passed).Reject? && !a[0](passed).Skip? then a[0](passed).edited else own;
      match a[0](passed)
      case Pass(edited, after) =>
        EnterComposes(a[1..], b, own1, edited, same);
        WrappedOnce(Enter(a[1..], own1, edited, same), b, Enter(a[1..] + b, own1, edited, same), after);
      case PassOther(edited, other, after) =>
        EnterComposes(a[1..], b, own1, other, false);
        WrappedOnce(Enter(a[1..], own1, other, false), b, Enter(a[1..] + b, own1, other, false), after);
      case _ =>
        StopWraps(Enter(a, own, passed, same), Then(Enter(a, own, passed, same), b));
    }
  }

  ghost predicate PassesItOn(hooks: seq<Hook>) {
    forall k, c :: 0 <= k < |hooks| ==> !hooks[k](c).PassOther?
  }

  /** Hooks that pass on the mutation they were given: what is checked is what is created. */
  lemma {:induction false} CheckedIsCreated(hooks: seq<Hook>, c: Content)
    requires PassesItOn(hooks)
    ensures var e := Enter(hooks, c, c, true); e.Entered? ==> e.same && e.own == e.passed
  {
    if hooks != [] {
      match hooks[0](c)
      case Pass(edited, _) =>
        assert forall k, d :: 0 <= k < |hooks[1..]| ==> hooks[1..][k](d) == hooks[k + 1](d);
        CheckedIsCreated(hooks[1..], edited);
      case _ =>
    }
  }

  /**
   * MAIN: what is created was checked, for every validator, iff the own mutation of the builder
   * cannot pass, or the mutation passed on has both keys and no id other than the own one.
   */
  lemma CreatedIsCheckedIff(e: Entry)
    requires e.Entered?
    ensures (forall validId: int -> bool :: Proceeds(e, validId) ==> Check(e.passed, validId).None?) <==>
            || e.own.wrappedKey.None? || e.own.serverKeyMaterial.None?
            || (e.passed.wrappedKey.Some? && e.passed.serverKeyMaterial.Some? && (e.passed.id.None? || e.passed.id == e.own.id))
  {
    if forall validId: int -> bool :: Proceeds(e, validId) ==> Check(e.passed, validId).None? {
      var onlyOwn: int -> bool := (id: int) => e.own.id == Some(id);
      assert Proceeds(e, onlyOwn) ==> Check(e.passed, onlyOwn).None?;
    }
  }

  /** Every builder by its own content, without hooks. */
  function Hookless(cs: seq<Content>): (es: seq<Entry>)
    ensures |es| == |cs|
  {
    seq(|cs|, k requires 0 <= k < |cs| => Enter([], cs[k], cs[k], true))
  }

  lemma {:induction false} ErrorsPass(es: seq<Entry>, end: Option<Error>, i: nat, c: nat)
    requires i <= c <= |es| && forall k :: i <= k < c ==> es[k].Entered? && forall r :: LastWord(es[k].late, r) == r
    ensures end.Some? ==> Outcome(es, end, i, c) == end
    ensures end.None? ==> Outcome(es, end, i, c) == if exists k :: i <= k < c && es[k].passed.id == Some(0) then Some(Panic) else None
    decreases c - i
  {
    if i < c {
      ErrorsPass(es, end, i + 1, c);
    }
  }

  lemma HooklessEntries(cs: seq<Content>)
    ensures forall k :: 0 <= k < |cs| ==>
              var e := Hookless(cs)[k]; e.Entered? && e.own == cs[k] == e.passed && forall r :: LastWord(e.late, r) == r
  {
    forall k | 0 <= k < |cs|
      ensures var e := Hookless(cs)[k]; e.Entered? && e.own == cs[k] == e.passed && forall r :: LastWord(e.late, r) == r
    {
      NoHooks(cs[k]);
    }
  }

  lemma StopOfCheck(e: Entry, validId: int -> bool)
    requires e.Entered? && Check(e.own, validId).Some? && forall r :: LastWord(e.late, r) == r
    ensures Stop(e, validId) == Check(e.own, validId)
  {
  }

  lemma NobodyMarked(es: seq<Entry>, validId: int -> bool, answer: Option<Error>)
    requires forall k :: 0 <= k < |es| ==> es[k].Entered? && forall r :: LastWord(es[k].late, r) == r
    requires FarEnd(es, validId, answer, 0).Some?
    ensures Chain(es, validId, answer, 0).marked == {}
  {
    hide Chain, Outcome, LastWord;
    var c, end := FirstStop(es, validId, 0), FarEnd(es, validId, answer, 0);
    ChainMeaning(es, validId, answer, 0);
    forall k | 0 <= k < c ensures k !in Chain(es, validId, answer, 0).marked {
      ErrorsPass(es, end, k + 1, c);
    }
  }

  /** MAIN: a bulk without hooks stops at the first builder whose check fails, with its error, inserting nothing. */
  lemma HooklessStops(cs: seq<Content>, validId: int -> bool, answer: Option<Error>, k: nat)
    requires k < |cs| && Check(cs[k], validId).Some? && forall j :: 0 <= j < k ==> Check(cs[j], validId).None?
    ensures Chain(Hookless(cs), validId, answer, 0) == Run(Check(cs[k], validId), false, {})
  {
    hide Chain, Outcome, Enter, LastWord;
    var es := Hookless(cs);
    HooklessEntries(cs);
    StopOfCheck(es[k], validId);
    assert FirstStop(es, validId, 0) == k;
    ChainMeaning(es, validId, answer, 0);
    ErrorsPass(es, FarEnd(es, validId, answer, 0), 0, k);
    NobodyMarked(es, validId, answer);
  }

  /**
   * MAIN: a bulk without hooks whose checks all pass runs the batch; it reports the batch's error, and
   * otherwise succeeds unless there is an explicit id of zero.
   */
  lemma HooklessRuns(cs: seq<Content>, validId: int -> bool, answer: Option<Error>)
    requires forall k :: 0 <= k < |cs| ==> Check(cs[k], validId).None?
    ensures var run := Chain(Hookless(cs), validId, answer, 0);
            && run.batched
            && run.err == if answer.Some? then answer
                          else if exists k :: 0 <= k < |cs| && cs[k].id == Some(0) then Some(Panic)
                          else None
  {
    hide Chain, Outcome, Enter, LastWord;
    var es := Hookless(cs);
    HooklessEntries(cs);
    assert FirstStop(es, validId, 0) == |es|;
    ChainMeaning(es, validId, answer, 0);
    ErrorsPass(es, answer, 0, |es|);
  }

  /** In a bulk of one without hooks the result is that of creating the one, unless its id is an explicit zero. */
  lemma BulkOfOne(c: Content, validId: int -> bool, answer: Option<Error>)
    ensures var run := Chain([Enter([], c, c, true)], validId, answer, 0);
            var one := if Check(c, validId).Some? then Check(c, validId) else answer;
            && (run.err == one <==> one.Some? || c.id != Some(0))
            && (run.batched <==> Check(c, validId).None?)
            && (run.marked == {0} <==> run.err.None?)
  {
    var es := [Enter([], c, c, true)];
    assert Chain(es, validId, answer, 1) == Run(answer, true, {});
  }

  /** A hook passing on a mutation of its own gets it created unchecked: the check reads the old one. */
  lemma UncheckedCreation(good: Content, validId: int -> bool)
    requires Check(good, validId).None?
    ensures var bad := Content(None, None, None);
            var hook: Hook := (c: Content) => PassOther(c, bad, (r: Option<Error>) => r);
            var e := Enter([hook], good, good, true);
            Proceeds(e, validId) && Check(e.passed, validId).Some?
  {
    var bad := Content(None, None, None);
    var hook: Hook := (c: Content) => PassOther(c, bad, (r: Option<Error>) => r);
    assert [hook][1..] == [];
  }
}

/** The bulk builder itself, on the heap: builders, their mutations, and the shared arrays. */
module BulkCreate {
  import opened Common
  import opened BulkChain

  class Mutation {
    var content: Content
    var done: bool

    constructor (content: Content)
      ensures this.content == content && !done
    {
      this.content, done := content, false;
    }
  }

  class Builder {
    var mutation: Mutation
    const hooks: seq<Hook>

    constructor (mutation: Mutation, hooks: seq<Hook>)
      ensures this.mutation == mutation && this.hooks == hooks
    {
      this.mutation, this.hooks := mutation, hooks;
    }
  }

  /** What a builder's mutation holds when Save starts. */
  datatype Start = Start(content: Content, done: bool)

  function WithId(spec: CreateSpec, id: int): CreateSpec {
    if spec.id.NoId? then spec.(id := Int64(id)) else spec
  }

  /** The spec at position k once the batch has, or has not, generated ids. */
  function Filled(spec: CreateSpec, generated: Option<nat -> int>, k: nat): CreateSpec {
    if generated.Some? then WithId(spec, generated.value(k)) else spec
  }

  /** The id a node ends up with: its own, or else the generated one. */
  function FinalId(c: Content, generated: Option<nat -> int>, k: nat): int {
    if c.id.None? && generated.Some? then generated.value(k) else c.id.GetOr(0)
  }

  /**
   * UnsealKeySlotCreate.sqlSave, the creation of one slot: the id conversion only ever meets a
   * generated id, so an explicit id of zero is kept. `create` answers with the generated id.
   */
  method SaveOne(m: Mutation, validId: int -> bool, create: CreateSpec -> Result<int, SqlError>)
    returns (r: Result<Node, Error>, sent: Option<CreateSpec>)
    modifies m
    ensures sent.None? <==> Check(old(m.content), validId).Some?
    ensures sent.Some? ==> Inserts(sent.value, old(m.content))
                           && sent.value.id == if old(m.content).id.Some? then GoInt(old(m.content).id.value) else NoId
    ensures r.Err? <==> sent.None? || create(sent.value).Err?
    ensures r.Err? ==> m.content == old(m.content) && m.done == old(m.done)
    ensures sent.None? ==> r == Err(Check(old(m.content), validId).value)
    ensures sent.Some? && create(sent.value).Err? ==> r == Err(FromDatabase(ReportedInsert(create(sent.value).error)))
    ensures r.Ok? ==> m.done && r.value.id == old(m.content).id.GetOr(create(sent.value).value)
    ensures r.Ok? ==> m.content == old(m.content).(id := Some(r.value.id)) && ReadBack(r.value, Written(sent.value.fields))
  {
    var err := Check(m.content, validId);
    if err.Some? {
      return Err(err.value), None;
    }
    var node, spec := NodeOf(m.content), SpecOf(m.content);
    SpecInserts(m.content);
    sent := Some(spec);
    match create(spec) {
      case Err(e) => r := Err(FromDatabase(ReportedInsert(e)));
      case Ok(generated) =>
        spec := WithId(spec, generated);
        if spec.id != GoInt(node.id) {
          assert spec.id.Int64?;
          node := node.(id := spec.id.i);
        }
        m.content := m.content.(id := Some(node.id));
        m.done := true;
        r := Ok(node);
    }
  }

  class CreateBulk {
    const err: Option<Error>
    const builders: seq<Builder>
    const validId: int -> bool
    /** The database: given every spec, an error or the id generated for each position. */
    const batch: seq<CreateSpec> -> Result<nat -> int, SqlError>
    /** The batch inserts issued so far. */
    var calls: seq<seq<CreateSpec>>

    constructor (err: Option<Error>, builders: seq<Builder>, validId: int -> bool,
                 batch: seq<CreateSpec> -> Result<nat -> int, SqlError>)
      ensures this.err == err && this.builders == builders && this.validId == validId && this.batch == batch && calls == []
    {
      this.err, this.builders, this.validId, this.batch, calls := err, builders, validId, batch, [];
    }

    function Answer(specs: seq<CreateSpec>): Option<Error> {
      match batch(specs)
      case Ok(_) => None
      case Err(e) => Some(FromDatabase(ReportedInsert(e)))
    }

    /** Each builder and each mutation is an object of its own, as Create makes them. */
    ghost predicate Separate()
      reads builders
    {
      && (forall k, l :: 0 <= k < l < |builders| ==> builders[k] != builders[l])
      && (forall k, l :: 0 <= k < l < |builders| ==> builders[k].mutation != builders[l].mutation)
    }

    /** Builder k has not been touched. */
    ghost predicate Untouched(k: nat, obj: Mutation, start: Start, spec: Option<CreateSpec>, node: Option<Node>)
      requires k < |builders|
      reads builders[k], obj
    {
      && builders[k].mutation == obj && obj.content == start.content && obj.done == start.done
      && spec.None? && node.None?
    }

    /** The turn of builder k stopped before createSpec. */
    ghost predicate Stopped(k: nat, obj: Mutation, start: Start, e: Entry, spec: Option<CreateSpec>, node: Option<Node>)
      requires k < |builders|
      reads builders[k], obj
    {
      && builders[k].mutation == obj && obj.content == e.own && obj.done == start.done
      && spec.None? && node.None?
    }

    /** Builder k went through createSpec; `marked` says whether it got to its bookkeeping. */
    ghost predicate Created(k: nat, obj: Mutation, start: Start, e: Entry, marked: bool, generated: Option<nat -> int>,
                            spec: Option<CreateSpec>, node: Option<Node>)
      requires k < |builders| && e.Entered?
      reads builders[k], builders[k].mutation
    {
      var id := if marked then FinalId(e.passed, generated, k) else e.passed.id.GetOr(0);
      && spec == Some(Filled(SpecOf(e.passed), generated, k))
      && node == Some(NodeOf(e.passed).(id := id))
      && (e.same <==> builders[k].mutation == obj)
      && builders[k].mutation.content == (if marked then e.passed.(id := Some(id)) else e.passed)
      && (builders[k].mutation.done <==> marked || (e.same && start.done))
    }

    /** The outcome of the chain from position i on. */
    ghost predicate Finished(i: nat, plan: seq<CreateSpec>, es: seq<Entry>, muts: seq<Mutation>, starts: seq<Start>,
                             calls0: seq<seq<CreateSpec>>, specs: array<Option<CreateSpec>>, nodes: array<Option<Node>>,
                             err: Option<Error>)
      requires i <= |es| == |plan| == |muts| == |starts| == |builders| == specs.Length == nodes.Length
      reads this, builders, set k | 0 <= k < |builders| :: builders[k].mutation
      reads muts, specs, nodes
    {
      var run, c := Chain(es, validId, Answer(plan), i), FirstStop(es, validId, i);
      && err == run.err
      && calls == calls0 + (if run.batched then [plan] else [])
      && (forall k :: i <= k < c ==>
            Created(k, muts[k], starts[k], es[k], k in run.marked, Generated(plan, run.batched), specs[k], nodes[k]))
      && (c < |es| ==> Stopped(c, muts[c], starts[c], es[c], specs[c], nodes[c]))
      && (forall k :: c < k < |es| ==> Untouched(k, muts[k], starts[k], specs[k], nodes[k]))
      && (forall k :: 0 <= k < i ==> specs[k] == Some(Filled(plan[k], Generated(plan, run.batched), k)))
    }

    /** The generated ids, when the batch ran and succeeded. */
    function Generated(plan: seq<CreateSpec>, batched: bool): Option<nat -> int> {
      if batched && batch(plan).Ok? then Some(batch(plan).value) else None
    }

    /** What a turn at position i may rely on: earlier slots filled, later builders untouched. */
    ghost predicate Ready(i: nat, plan: seq<CreateSpec>, es: seq<Entry>, muts: seq<Mutation>, starts: seq<Start>,
                          specs: array<Option<CreateSpec>>, nodes: array<Option<Node>>)
      requires i < |es| == |plan| == |muts| == |starts| == |builders| == specs.Length == nodes.Length
      reads builders, set k | 0 <= k < |builders| :: builders[k].mutation
      reads muts, specs, nodes
    {
      && Separate()
      && (forall k, l :: 0 <= k < l < |muts| ==> muts[k] != muts[l])
      && (forall k, l :: 0 <= k < i <= l < |muts| ==> builders[k].mutation != muts[l])
      && (forall k :: 0 <= k < i ==> specs[k] == Some(plan[k]))
      && (forall k :: i <= k < |es| && es[k].Entered? ==> plan[k] == SpecOf(es[k].passed))
      && (forall k :: i < k < |es| ==>
            es[k] == Enter(builders[k].hooks, starts[k].content, starts[k].content, true)
            && Untouched(k, muts[k], starts[k], specs[k], nodes[k]))
    }

    /** Builder i is in its turn, still with its original mutation; the hooks so far passed on `m`. */
    ghost predicate InTurn(i: nat, m: Mutation, muts: seq<Mutation>, starts: seq<Start>,
                           specs: array<Option<CreateSpec>>, nodes: array<Option<Node>>)
      requires i < |muts| == |starts| == |builders| == specs.Length == nodes.Length
      reads builders, set k | 0 <= k < |builders| :: builders[k].mutation
      reads muts, m, specs, nodes
    {
      && builders[i].mutation == muts[i] && muts[i].done == starts[i].done
      && specs[i].None? && nodes[i].None?
      && (m != muts[i] ==> !m.done)
      && (forall k :: 0 <= k < |muts| && k != i ==> m != muts[k] && m != builders[k].mutation)
    }

    /** The batch insert: on success every spec without an id gets the generated one. */
    method BatchCreate(specs: array<Option<CreateSpec>>, ghost planned: seq<CreateSpec>) returns (err: Option<Error>)
      requires specs.Length == |planned| && forall k :: 0 <= k < |planned| ==> specs[k] == Some(planned[k])
      modifies this`calls, specs
      ensures calls == old(calls) + [planned]
      ensures err == Answer(planned)
      ensures forall k: nat :: k < |planned| ==>
                specs[k] == Some(if batch(planned).Ok? then WithId(planned[k], batch(planned).value(k)) else planned[k])
    {
      var list := [];
      for k := 0 to specs.Length
        invariant list == planned[..k]
      {
        list := list + [specs[k].value];
      }
      assert list == planned;
      calls := calls + [list];
      match batch(list) {
        case Err(e) => err := Some(FromDatabase(ReportedInsert(e)));
        case Ok(gen) =>
          err := None;
          for k := 0 to specs.Length
            invariant forall l: nat :: l < |planned| ==>
                        specs[l] == Some(if l < k then WithId(planned[l], gen(l)) else planned[l])
            invariant calls == old(calls) + [planned]
          {
            specs[k] := Some(WithId(specs[k].value, gen(k)));
          }
      }
    }

    /** A turn that stops before createSpec finishes the chain there. */
    lemma StoppedHere(i: nat, m: Mutation, plan: seq<CreateSpec>, es: seq<Entry>, muts: seq<Mutation>, starts: seq<Start>,
                      specs: array<Option<CreateSpec>>, nodes: array<Option<Node>>)
      requires i < |es| == |plan| == |muts| == |starts| == |builders| == specs.Length == nodes.Length
      requires Ready(i, plan, es, muts, starts, specs, nodes) && InTurn(i, m, muts, starts, specs, nodes)
      requires !Proceeds(es[i], validId) && muts[i].content == es[i].own
      ensures Finished(i, plan, es, muts, starts, calls, specs, nodes, Stop(es[i], validId))
    {
      assert calls + [] == calls;
    }

    /**
     * The mutator of builder i after its hooks: check, createSpec, the next mutator or the batch,
     * and the bookkeeping on the way back.
     */
    method Turn(i: nat, m: Mutation, specs: array<Option<CreateSpec>>, nodes: array<Option<Node>>,
                ghost plan: seq<CreateSpec>, ghost es: seq<Entry>, ghost muts: seq<Mutation>, ghost starts: seq<Start>)
      returns (err: Option<Error>)
      requires i < |es| == |plan| == |muts| == |starts| == |builders| == specs.Length == nodes.Length
      requires Ready(i, plan, es, muts, starts, specs, nodes) && InTurn(i, m, muts, starts, specs, nodes)
      requires es[i] == Enter([], muts[i].content, m.content, m == muts[i])
      modifies this`calls, specs, nodes, m, builders[i..], muts[i..]
      ensures Finished(i, plan, es, muts, starts, old(calls), specs, nodes, err)
      ensures forall k :: 0 <= k < i ==> nodes[k] == old(nodes[k])
      ensures forall k :: i <= k < |muts| ==>
                builders[k].mutation == muts[k] || (k == i && builders[k].mutation == m) || fresh(builders[k].mutation)
      decreases |builders| - i, 2
    {
      var builder := builders[i];
      err := Check(builder.mutation.content, validId);
      if err.Some? {
        StoppedHere(i, m, plan, es, muts, starts, specs, nodes);
        return;
      }
      builder.mutation := m;
      var inner := Descend(i, m, specs, nodes, plan, es, muts, starts);
      err := ComeBack(i, m, inner, specs, nodes, plan, es, muts, starts, old(calls));
    }

    /** Fills slot i and runs the rest of the chain: the next mutator, or the batch. */
    method Descend(i: nat, m: Mutation, specs: array<Option<CreateSpec>>, nodes: array<Option<Node>>,
                   ghost plan: seq<CreateSpec>, ghost es: seq<Entry>, ghost muts: seq<Mutation>, ghost starts: seq<Start>)
      returns (err: Option<Error>)
      requires i < |es| == |plan| == |muts| == |starts| == |builders| == specs.Length == nodes.Length
      requires Ready(i, plan, es, muts, starts, specs, nodes)
      requires es[i].Entered? && builders[i].mutation == m && m.content == es[i].passed
      requires forall k :: i < k < |muts| ==> m != muts[k]
      modifies this`calls, specs, nodes, builders[i + 1..], muts[i + 1..]
      ensures Finished(i + 1, plan, es, muts, starts, old(calls), specs, nodes, err)
      ensures forall k :: i < k < |muts| ==> builders[k].mutation == muts[k] || fresh(builders[k].mutation)
      ensures (forall k :: 0 <= k < i ==> nodes[k] == old(nodes[k])) && nodes[i] == Some(NodeOf(es[i].passed))
      ensures builders[i].mutation == m && m.content == old(m.content) && m.done == old(m.done)
      decreases |builders| - i, 1
    {
      hide CreateBulk.Finished, CreateBulk.Created, CreateBulk.Stopped, Chain, FirstStop;
      nodes[i] := Some(NodeOf(m.content));
      specs[i] := Some(SpecOf(m.content));
      err := Next(i, specs, nodes, plan, es, muts, starts);
    }

    /** The rest of the chain after position i: the next mutator, or the batch. */
    method Next(i: nat, specs: array<Option<CreateSpec>>, nodes: array<Option<Node>>,
                ghost plan: seq<CreateSpec>, ghost es: seq<Entry>, ghost muts: seq<Mutation>, ghost starts: seq<Start>)
      returns (err: Option<Error>)
      requires i < |es| == |plan| == |muts| == |starts| == |builders| == specs.Length == nodes.Length
      requires Ready(i, plan, es, muts, starts, specs, nodes) && specs[i] == Some(plan[i])
      requires forall k :: i < k < |muts| ==> builders[i].mutation != muts[k]
      modifies this`calls, specs, nodes, builders[i + 1..], muts[i + 1..]
      ensures Finished(i + 1, plan, es, muts, starts, old(calls), specs, nodes, err)
      ensures forall k :: 0 <= k <= i ==> nodes[k] == old(nodes[k])
      ensures forall k :: i < k < |muts| ==> builders[k].mutation == muts[k] || fresh(builders[k].mutation)
      decreases |builders| - i, 0
    {
      if i < |builders| - 1 {
        assert Untouched(i + 1, muts[i + 1], starts[i + 1], specs[i + 1], nodes[i + 1]);
        err := Mutate(i + 1, 0, builders[i + 1].mutation, specs, nodes, plan, es, muts, starts);
      } else {
        err := BatchCreate(specs, plan);
      }
    }

    /** Builder i has filled its slot and waits for the rest of the chain. */
    ghost predicate Waiting(i: nat, m: Mutation, plan: seq<CreateSpec>, es: seq<Entry>, muts: seq<Mutation>, starts: seq<Start>,
                            nodes: array<Option<Node>>)
      requires i < |es| == |plan| == |muts| == |starts| == |builders| == nodes.Length
      reads builders, m, nodes, set k | 0 <= k < |builders| :: builders[k].mutation
    {
      && Proceeds(es[i], validId) && plan[i] == SpecOf(es[i].passed)
      && (forall r :: LastWord(es[i].late, r) == r)
      && builders[i].mutation == m && m.content == es[i].passed && nodes[i] == Some(NodeOf(es[i].passed))
      && (es[i].same <==> m == muts[i])
      && (m.done <==> es[i].same && starts[i].done)
      && forall k :: i < k < |muts| ==> m != muts[k] && m != builders[k].mutation
    }

    /** On the way back with an error, or failing at the id conversion, nothing is recorded. */
    lemma BackUnmarked(i: nat, m: Mutation, inner: Option<Error>, specs: array<Option<CreateSpec>>, nodes: array<Option<Node>>,
                       plan: seq<CreateSpec>, es: seq<Entry>, muts: seq<Mutation>, starts: seq<Start>, calls0: seq<seq<CreateSpec>>)
      requires i < |es| == |plan| == |muts| == |starts| == |builders| == specs.Length == nodes.Length
      requires Waiting(i, m, plan, es, muts, starts, nodes)
      requires Finished(i + 1, plan, es, muts, starts, calls0, specs, nodes, inner)
      requires inner.Some? || Panics(es[i].passed)
      ensures Finished(i, plan, es, muts, starts, calls0, specs, nodes, if inner.Some? then inner else Some(Panic))
    {
      var run := Chain(es, validId, Answer(plan), i + 1);
      MarkedFrom(es, validId, Answer(plan), i + 1);
      assert Created(i, muts[i], starts[i], es[i], false, Generated(plan, run.batched), specs[i], nodes[i]);
    }

    /** A successful turn: its bookkeeping touches nobody else's. */
    method Mark(i: nat, m: Mutation, specs: array<Option<CreateSpec>>, nodes: array<Option<Node>>,
                ghost plan: seq<CreateSpec>, ghost es: seq<Entry>, ghost muts: seq<Mutation>, ghost starts: seq<Start>,
                ghost calls0: seq<seq<CreateSpec>>)
      requires i < |es| == |plan| == |muts| == |starts| == |builders| == specs.Length == nodes.Length
      requires Waiting(i, m, plan, es, muts, starts, nodes)
      requires Finished(i + 1, plan, es, muts, starts, calls0, specs, nodes, None)
      requires !Panics(es[i].passed)
      modifies nodes, m
      ensures Finished(i, plan, es, muts, starts, calls0, specs, nodes, None)
      ensures forall k :: 0 <= k < i ==> nodes[k] == old(nodes[k])
    {
      ghost var run, c := Chain(es, validId, Answer(plan), i + 1), FirstStop(es, validId, i + 1);
      ghost var generated := Generated(plan, run.batched);
      MarkedFrom(es, validId, Answer(plan), i + 1);
      Record(i, m, muts[i], starts[i], es[i], generated, specs, nodes);
      forall k | i < k < c ensures Created(k, muts[k], starts[k], es[k], k in run.marked, generated, specs[k], nodes[k]) {
        assert old(Created(k, muts[k], starts[k], es[k], k in run.marked, generated, specs[k], nodes[k]));
      }
      if c < |es| {
        assert old(Stopped(c, muts[c], starts[c], es[c], specs[c], nodes[c]));
      }
      forall k | c < k < |es| ensures Untouched(k, muts[k], starts[k], specs[k], nodes[k]) {
        assert old(Untouched(k, muts[k], starts[k], specs[k], nodes[k]));
      }
    }

    /** The bookkeeping: the node's id, the mutation's id, and done. */
    method Record(i: nat, m: Mutation, ghost obj: Mutation, ghost start: Start, ghost e: Entry, ghost generated: Option<nat -> int>,
                  specs: array<Option<CreateSpec>>, nodes: array<Option<Node>>)
      requires i < |builders| == specs.Length == nodes.Length && e.Entered? && !Panics(e.passed)
      requires builders[i].mutation == m && Created(i, obj, start, e, false, generated, specs[i], nodes[i])
      modifies nodes, m
      ensures Created(i, obj, start, e, true, generated, specs[i], nodes[i])
      ensures forall k :: 0 <= k < nodes.Length && k != i ==> nodes[k] == old(nodes[k])
    {
      if !specs[i].value.id.NoId? && nodes[i].value.id == 0 {
        nodes[i] := Some(nodes[i].value.(id := specs[i].value.id.i));
      }
      // The mutation points at the node's id, so it sees the converted one.
      m.content := m.content.(id := Some(nodes[i].value.id));
      m.done := true;
    }

    /** The way back through position i: id conversion and bookkeeping, unless there was an error. */
    method ComeBack(i: nat, m: Mutation, inner: Option<Error>, specs: array<Option<CreateSpec>>, nodes: array<Option<Node>>,
                    ghost plan: seq<CreateSpec>, ghost es: seq<Entry>, ghost muts: seq<Mutation>, ghost starts: seq<Start>,
                    ghost calls0: seq<seq<CreateSpec>>)
      returns (err: Option<Error>)
      requires i < |es| == |plan| == |muts| == |starts| == |builders| == specs.Length == nodes.Length
      requires Waiting(i, m, plan, es, muts, starts, nodes)
      requires Finished(i + 1, plan, es, muts, starts, calls0, specs, nodes, inner)
      modifies nodes, m
      ensures Finished(i, plan, es, muts, starts, calls0, specs, nodes, err)
      ensures forall k :: 0 <= k < i ==> nodes[k] == old(nodes[k])
    {
      if inner.Some? {
        BackUnmarked(i, m, inner, specs, nodes, plan, es, muts, starts, calls0);
        return inner;
      }
      if !specs[i].value.id.NoId? && nodes[i].value.id == 0 && !specs[i].value.id.Int64? {
        // The type assertion to int64 fails.
        BackUnmarked(i, m, inner, specs, nodes, plan, es, muts, starts, calls0);
        return Some(Panic);
      }
      Mark(i, m, specs, nodes, plan, es, muts, starts, calls0);
      err := None;
    }

    /** The mutator of builder i from its hook j on. */
    method Mutate(i: nat, j: nat, m: Mutation, specs: array<Option<CreateSpec>>, nodes: array<Option<Node>>,
                  ghost plan: seq<CreateSpec>, ghost es: seq<Entry>, ghost muts: seq<Mutation>, ghost starts: seq<Start>)
      returns (err: Option<Error>)
      requires i < |es| == |plan| == |muts| == |starts| == |builders| == specs.Length == nodes.Length
      requires j <= |builders[i].hooks|
      requires Ready(i, plan, es, muts, starts, specs, nodes) && InTurn(i, m, muts, starts, specs, nodes)
      requires es[i] == Enter(builders[i].hooks[j..], muts[i].content, m.content, m == muts[i])
      modifies this`calls, specs, nodes, m, builders[i..], muts[i..]
      ensures Finished(i, plan, es, muts, starts, old(calls), specs, nodes, err)
      ensures forall k :: 0 <= k < i ==> nodes[k] == old(nodes[k])
      ensures forall k :: i <= k < |muts| ==>
                builders[k].mutation == muts[k] || (k == i && builders[k].mutation == m) || fresh(builders[k].mutation)
      decreases |builders| - i, 3 + |builders[i].hooks| - j, 1
    {
      if j == |builders[i].hooks| {
        err := Turn(i, m, specs, nodes, plan, es, muts, starts);
      } else {
        err := CallHook(i, j, m, specs, nodes, plan, es, muts, starts);
      }
    }

    /** A hook edits the mutation it was given and passes it on, or a new one of its own instead. */
    method PassOn(i: nat, m: Mutation, edited: Content, other: Option<Content>,
                  specs: array<Option<CreateSpec>>, nodes: array<Option<Node>>,
                  ghost plan: seq<CreateSpec>, ghost es: seq<Entry>, ghost muts: seq<Mutation>, ghost starts: seq<Start>)
      returns (next: Mutation)
      requires i < |es| == |plan| == |muts| == |starts| == |builders| == specs.Length == nodes.Length
      requires Ready(i, plan, es, muts, starts, specs, nodes) && InTurn(i, m, muts, starts, specs, nodes)
      modifies m`content
      ensures Ready(i, plan, es, muts, starts, specs, nodes) && InTurn(i, next, muts, starts, specs, nodes)
      ensures next.content == other.GetOr(edited) && (next != m ==> m.content == edited)
      ensures if other.None? then next == m else fresh(next)
    {
      m.content := edited;
      next := m;
      if other.Some? {
        next := new Mutation(other.value);
      }
    }

    /** Hook j of builder i and, unless it stops, whatever it calls next. */
    method CallHook(i: nat, j: nat, m: Mutation, specs: array<Option<CreateSpec>>, nodes: array<Option<Node>>,
                    ghost plan: seq<CreateSpec>, ghost es: seq<Entry>, ghost muts: seq<Mutation>, ghost starts: seq<Start>)
      returns (err: Option<Error>)
      requires i < |es| == |plan| == |muts| == |starts| == |builders| == specs.Length == nodes.Length
      requires j < |builders[i].hooks|
      requires Ready(i, plan, es, muts, starts, specs, nodes) && InTurn(i, m, muts, starts, specs, nodes)
      requires es[i] == Enter(builders[i].hooks[j..], muts[i].content, m.content, m == muts[i])
      modifies this`calls, specs, nodes, m, builders[i..], muts[i..]
      ensures Finished(i, plan, es, muts, starts, old(calls), specs, nodes, err)
      ensures forall k :: 0 <= k < i ==> nodes[k] == old(nodes[k])
      ensures forall k :: i <= k < |muts| ==>
                builders[k].mutation == muts[k] || (k == i && builders[k].mutation == m) || fresh(builders[k].mutation)
      decreases |builders| - i, 3 + |builders[i].hooks| - j, 0
    {
      assert builders[i].hooks[j..][0] == builders[i].hooks[j] && builders[i].hooks[j..][1..] == builders[i].hooks[j + 1..];
      var verdict := builders[i].hooks[j](m.content);
      if verdict.Reject? || verdict.Skip? {
        StoppedHere(i, m, plan, es, muts, starts, specs, nodes);
        return if verdict.Reject? then Some(verdict.e) else None;
      }
      var other := if verdict.Pass? then None else Some(verdict.other);
      var next := PassOn(i, m, verdict.edited, other, specs, nodes, plan, es, muts, starts);
      err := Onward(i, j + 1, next, verdict.after, specs, nodes, plan, es, muts, starts);
    }

    /** A hook calling next once; it has the last word on the result, unless that is a crash. */
    method Onward(i: nat, j: nat, m: Mutation, after: After, specs: array<Option<CreateSpec>>, nodes: array<Option<Node>>,
                  ghost plan: seq<CreateSpec>, ghost es: seq<Entry>, ghost muts: seq<Mutation>, ghost starts: seq<Start>)
      returns (err: Option<Error>)
      requires i < |es| == |plan| == |muts| == |starts| == |builders| == specs.Length == nodes.Length
      requires j <= |builders[i].hooks|
      requires Ready(i, plan, es, muts, starts, specs, nodes) && InTurn(i, m, muts, starts, specs, nodes)
      requires es[i] == WithAfter(Enter(builders[i].hooks[j..], muts[i].content, m.content, m == muts[i]), after)
      modifies this`calls, specs, nodes, m, builders[i..], muts[i..]
      ensures Finished(i, plan, es, muts, starts, old(calls), specs, nodes, err)
      ensures forall k :: 0 <= k < i ==> nodes[k] == old(nodes[k])
      ensures forall k :: i <= k < |muts| ==>
                builders[k].mutation == muts[k] || (k == i && builders[k].mutation == m) || fresh(builders[k].mutation)
      decreases |builders| - i, 3 + |builders[i].hooks| - j, 2
    {
      ghost var es' := es[i := Enter(builders[i].hooks[j..], muts[i].content, m.content, m == muts[i])];
      err := Mutate(i, j, m, specs, nodes, plan, es', muts, starts);
      HookAfterwards(i, es', es, after, err, plan, muts, starts, old(calls), specs, nodes);
      err := LastWord(after, err);
    }

    /** What a turn did to its objects does not depend on the last word of a hook. */
    lemma SameTurn(k: nat, obj: Mutation, start: Start, e: Entry, after: After, marked: bool, generated: Option<nat -> int>,
                   spec: Option<CreateSpec>, node: Option<Node>)
      requires k < |builders|
      ensures e.Entered? <==> WithAfter(e, after).Entered?
      ensures e.Entered? ==> (Created(k, obj, start, e, marked, generated, spec, node) <==>
                              Created(k, obj, start, WithAfter(e, after), marked, generated, spec, node))
      ensures Stopped(k, obj, start, e, spec, node) <==> Stopped(k, obj, start, WithAfter(e, after), spec, node)
    {
    }

    /** What the hook makes of the result shows in the result and nowhere else. */
    lemma HookAfterwards(i: nat, es': seq<Entry>, es: seq<Entry>, after: After, err: Option<Error>,
                         plan: seq<CreateSpec>, muts: seq<Mutation>, starts: seq<Start>, calls0: seq<seq<CreateSpec>>,
                         specs: array<Option<CreateSpec>>, nodes: array<Option<Node>>)
      requires i < |es| == |es'| == |plan| == |muts| == |starts| == |builders| == specs.Length == nodes.Length
      requires es == es'[i := WithAfter(es'[i], after)]
      requires Finished(i, plan, es', muts, starts, calls0, specs, nodes, err)
      ensures Finished(i, plan, es, muts, starts, calls0, specs, nodes, LastWord(after, err))
    {
      hide CreateBulk.Created, CreateBulk.Stopped, CreateBulk.Untouched, Chain, FirstStop;
      HookHasTheLastWord(i, es', es, validId, after, Answer(plan));
      var run := Chain(es, validId, Answer(plan), i);
      SameTurn(i, muts[i], starts[i], es'[i], after, i in run.marked, Generated(plan, run.batched), specs[i], nodes[i]);
    }

    ghost function Mutations(): (ms: seq<Mutation>)
      reads builders
      ensures |ms| == |builders| && forall k :: 0 <= k < |ms| ==> ms[k] == builders[k].mutation
    {
      seq(|builders|, k requires 0 <= k < |builders| reads builders => builders[k].mutation)
    }

    ghost function Starts(): (ss: seq<Start>)
      reads builders, Mutations()
      ensures |ss| == |builders|
      ensures forall k :: 0 <= k < |ss| ==> ss[k] == Start(builders[k].mutation.content, builders[k].mutation.done)
    {
      var ms := Mutations();
      seq(|builders|, k requires 0 <= k < |builders| reads ms => Start(ms[k].content, ms[k].done))
    }

    /** The entry of each builder, from its hooks and what its mutation holds. */
    ghost function Entries(starts: seq<Start>): (es: seq<Entry>)
      requires |starts| == |builders|
      ensures |es| == |builders|
    {
      seq(|builders|, k requires 0 <= k < |builders| => Enter(builders[k].hooks, starts[k].content, starts[k].content, true))
    }

    /** The specs that are inserted when nobody stops. */
    ghost function Plan(es: seq<Entry>): (plan: seq<CreateSpec>)
      ensures |plan| == |es|
    {
      seq(|es|, k requires 0 <= k < |es| => SpecOf(if es[k].Entered? then es[k].passed else es[k].own))
    }

    lemma AtStart(plan: seq<CreateSpec>, es: seq<Entry>, muts: seq<Mutation>, starts: seq<Start>,
                  specs: array<Option<CreateSpec>>, nodes: array<Option<Node>>)
      requires Separate() && builders != []
      requires muts == Mutations() && starts == Starts() && es == Entries(starts) && plan == Plan(es)
      requires specs.Length == nodes.Length == |builders|
      requires forall k :: 0 <= k < |builders| ==> specs[k].None? && nodes[k].None?
      ensures Ready(0, plan, es, muts, starts, specs, nodes) && InTurn(0, muts[0], muts, starts, specs, nodes)
      ensures es[0] == Enter(builders[0].hooks[0..], muts[0].content, muts[0].content, true)
    {
      assert builders[0].hooks[0..] == builders[0].hooks;
    }

    /** Calls the first mutator on fresh slots. */
    method RunChain(specs: array<Option<CreateSpec>>, nodes: array<Option<Node>>) returns (e: Option<Error>)
      requires Separate() && builders != []
      requires specs.Length == nodes.Length == |builders|
      requires forall k :: 0 <= k < |builders| ==> specs[k].None? && nodes[k].None?
      modifies this`calls, specs, nodes, builders, Mutations()
      ensures var es := Entries(old(Starts()));
              Finished(0, Plan(es), es, old(Mutations()), old(Starts()), old(calls), specs, nodes, e)
    {
      ghost var muts, starts := Mutations(), Starts();
      ghost var es := Entries(starts);
      ghost var plan := Plan(es);
      AtStart(plan, es, muts, starts, specs, nodes);
      e := Mutate(0, 0, builders[0].mutation, specs, nodes, plan, es, muts, starts);
    }

    /** The ids generated by the batch insert issued since `calls0`, if it was issued and succeeded. */
    function GeneratedSince(calls0: seq<seq<CreateSpec>>): Option<nat -> int>
      reads this
    {
      if |calls| > |calls0| && batch(calls[|calls| - 1]).Ok? then Some(batch(calls[|calls| - 1]).value) else None
    }

    /** The error of the batch insert issued since `calls0`, if any. */
    function AnswerSince(calls0: seq<seq<CreateSpec>>): Option<Error>
      reads this
    {
      if |calls| > |calls0| then Answer(calls[|calls| - 1]) else None
    }

    /**
     * At most one batch insert was issued, of one specification per builder; and every builder whose
     * turn got as far as createSpec has filled its slots from the content that its hooks passed on.
     */
    ghost predicate SlotsFilled(es: seq<Entry>, calls0: seq<seq<CreateSpec>>, specs: seq<Option<CreateSpec>>, nodes: seq<Option<Node>>)
      requires |es| == |specs| == |nodes|
      reads this
    {
      && (calls == calls0 || (exists b :: calls == calls0 + [b] && BatchOf(b, es)))
      && (calls == calls0 <==> FirstStop(es, validId, 0) < |es|)
      && Slots(es, validId, AnswerSince(calls0), GeneratedSince(calls0), specs, nodes)
    }

    lemma CreatedFillsSlot(k: nat, obj: Mutation, start: Start, e: Entry, marked: bool, generated: Option<nat -> int>,
                           spec: Option<CreateSpec>, node: Option<Node>)
      requires k < |builders| && e.Entered? && Created(k, obj, start, e, marked, generated, spec, node)
      ensures Slot(spec, node, e.passed, marked, IdAt(generated, k))
    {
      SpecInserts(e.passed);
    }

    lemma PlanIsBatch(es: seq<Entry>)
      requires forall k :: 0 <= k < |es| ==> es[k].Entered?
      ensures BatchOf(Plan(es), es)
    {
      forall k | 0 <= k < |es| ensures Inserts(Plan(es)[k], es[k].passed) {
        SpecInserts(es[k].passed);
      }
    }

    /** The chain's error matters only to those who get to the batch. */
    lemma {:induction false} AnswerOnlyIfBatched(es: seq<Entry>, a: Option<Error>, b: Option<Error>, i: nat)
      requires i <= |es| && FirstStop(es, validId, i) < |es|
      ensures Chain(es, validId, a, i) == Chain(es, validId, b, i)
      decreases |es| - i
    {
      if Proceeds(es[i], validId) {
        AnswerOnlyIfBatched(es, a, b, i + 1);
      }
    }

    lemma AllProceed(es: seq<Entry>)
      ensures FirstStop(es, validId, 0) == |es| ==> forall k :: 0 <= k < |es| ==> es[k].Entered?
      ensures FirstStop(es, validId, 0) <= |es|
    {
    }

    lemma BatchIssued(es: seq<Entry>, calls0: seq<seq<CreateSpec>>)
      requires |es| == |builders|
      requires calls == calls0 + if Chain(es, validId, Answer(Plan(es)), 0).batched then [Plan(es)] else []
      ensures calls == calls0 || (exists b :: calls == calls0 + [b] && BatchOf(b, es))
      ensures calls == calls0 <==> FirstStop(es, validId, 0) < |es|
      ensures var run := Chain(es, validId, Answer(Plan(es)), 0);
              && Chain(es, validId, AnswerSince(calls0), 0) == run
              && GeneratedSince(calls0) == Generated(Plan(es), run.batched)
    {
      hide Chain, BatchOf, FirstStop, CreateBulk.Plan, Proceeds;
      var plan := Plan(es);
      ChainMeaning(es, validId, Answer(plan), 0);
      AllProceed(es);
      if Chain(es, validId, Answer(plan), 0).batched {
        PlanIsBatch(es);
        assert calls == calls0 + [plan];
      } else {
        assert calls == calls0 + [] == calls0;
        AnswerOnlyIfBatched(es, Answer(plan), None, 0);
      }
    }

    lemma FinishedCalls(es: seq<Entry>, muts: seq<Mutation>, starts: seq<Start>, calls0: seq<seq<CreateSpec>>,
                        specs: array<Option<CreateSpec>>, nodes: array<Option<Node>>)
      requires |es| == |muts| == |starts| == |builders| == specs.Length == nodes.Length
      requires var run := Chain(es, validId, Answer(Plan(es)), 0);
               Finished(0, Plan(es), es, muts, starts, calls0, specs, nodes, run.err)
      ensures calls == calls0 + if Chain(es, validId, Answer(Plan(es)), 0).batched then [Plan(es)] else []
    {
    }

    lemma CreatedSlots(c: nat, es: seq<Entry>, muts: seq<Mutation>, starts: seq<Start>, marked: set<nat>,
                       generated: Option<nat -> int>, specs: seq<Option<CreateSpec>>, nodes: seq<Option<Node>>)
      requires c <= |es| == |muts| == |starts| == |builders| == |specs| == |nodes|
      requires forall k :: 0 <= k < c ==> es[k].Entered?
      requires forall k :: 0 <= k < c ==> Created(k, muts[k], starts[k], es[k], k in marked, generated, specs[k], nodes[k])
      ensures forall k :: 0 <= k < c ==> Slot(specs[k], nodes[k], es[k].passed, k in marked, IdAt(generated, k))
    {
      hide Slot, CreateBulk.Created;
      forall k | 0 <= k < c ensures Slot(specs[k], nodes[k], es[k].passed, k in marked, IdAt(generated, k)) {
        CreatedFillsSlot(k, muts[k], starts[k], es[k], k in marked, generated, specs[k], nodes[k]);
      }
    }

    /** The part of Finished about those who went through createSpec. */
    lemma FinishedCreated(es: seq<Entry>, muts: seq<Mutation>, starts: seq<Start>, calls0: seq<seq<CreateSpec>>,
                          specs: array<Option<CreateSpec>>, nodes: array<Option<Node>>, err: Option<Error>, k: nat)
      requires |es| == |muts| == |starts| == |builders| == specs.Length == nodes.Length && k < FirstStop(es, validId, 0)
      requires Finished(0, Plan(es), es, muts, starts, calls0, specs, nodes, err)
      ensures var run := Chain(es, validId, Answer(Plan(es)), 0);
              && es[k].Entered?
              && Created(k, muts[k], starts[k], es[k], k in run.marked, Generated(Plan(es), run.batched), specs[k], nodes[k])
    {
      hide Chain, CreateBulk.Created, CreateBulk.Stopped, CreateBulk.Untouched;
    }

    lemma SlotsHold(es: seq<Entry>, muts: seq<Mutation>, starts: seq<Start>, calls0: seq<seq<CreateSpec>>,
                    specs: array<Option<CreateSpec>>, nodes: array<Option<Node>>, err: Option<Error>)
      requires |es| == |muts| == |starts| == |builders| == specs.Length == nodes.Length
      requires Finished(0, Plan(es), es, muts, starts, calls0, specs, nodes, err)
      ensures var run := Chain(es, validId, Answer(Plan(es)), 0);
              Slots(es, validId, Answer(Plan(es)), Generated(Plan(es), run.batched), specs[..], nodes[..])
    {
      hide Slot, CreateBulk.Created, CreateBulk.Finished, Chain, FirstStop, CreateBulk.Generated, CreateBulk.Plan;
      var run := Chain(es, validId, Answer(Plan(es)), 0);
      forall k | 0 <= k < FirstStop(es, validId, 0)
        ensures es[k].Entered?
                && Created(k, muts[k], starts[k], es[k], k in run.marked, Generated(Plan(es), run.batched), specs[..][k], nodes[..][k])
      {
        FinishedCreated(es, muts, starts, calls0, specs, nodes, err, k);
      }
      CreatedSlots(FirstStop(es, validId, 0), es, muts, starts, run.marked, Generated(Plan(es), run.batched), specs[..], nodes[..]);
    }

    lemma SlotsAreFilled(es: seq<Entry>, muts: seq<Mutation>, starts: seq<Start>, calls0: seq<seq<CreateSpec>>,
                         specs: array<Option<CreateSpec>>, nodes: array<Option<Node>>)
      requires |es| == |muts| == |starts| == |builders| == specs.Length == nodes.Length
      requires var run := Chain(es, validId, Answer(Plan(es)), 0);
               Finished(0, Plan(es), es, muts, starts, calls0, specs, nodes, run.err)
      ensures SlotsFilled(es, calls0, specs[..], nodes[..])
    {
      hide CreateBulk.Finished, Slots, BatchOf, Chain, FirstStop, CreateBulk.Plan, CreateBulk.GeneratedSince, CreateBulk.Generated,
           CreateBulk.AnswerSince, CreateBulk.Answer;
      var answer := Answer(Plan(es));
      FinishedCalls(es, muts, starts, calls0, specs, nodes);
      BatchIssued(es, calls0);
      SlotsHold(es, muts, starts, calls0, specs, nodes, Chain(es, validId, answer, 0).err);
      SlotsForBatch(es, answer, AnswerSince(calls0), GeneratedSince(calls0), specs[..], nodes[..]);
    }

    /** The slots depend on the answer only through who is marked. */
    lemma SlotsForBatch(es: seq<Entry>, a: Option<Error>, b: Option<Error>, generated: Option<nat -> int>,
                        specs: seq<Option<CreateSpec>>, nodes: seq<Option<Node>>)
      requires |es| == |specs| == |nodes| && Chain(es, validId, a, 0) == Chain(es, validId, b, 0)
      ensures Slots(es, validId, a, generated, specs, nodes) ==> Slots(es, validId, b, generated, specs, nodes)
    {
    }

    /**
     * Save: the error, the batch inserts issued, every slot, every mutation and every done flag
     * are those of Chain on the builders' entries.
     */
    method Save() returns (r: Result<seq<Option<Node>>, Error>, specs: array<Option<CreateSpec>>, nodes: array<Option<Node>>)
      requires Separate()
      modifies this`calls, builders, Mutations()
      ensures err.Some? ==> r == Err(err.value) && calls == old(calls)
      ensures err.None? && builders == [] ==> r == Ok([]) && calls == old(calls)
      ensures specs.Length == nodes.Length == |builders|
      ensures err.None? && builders != [] ==>
                var es := Entries(old(Starts()));
                var run := Chain(es, validId, Answer(Plan(es)), 0);
                && Finished(0, Plan(es), es, old(Mutations()), old(Starts()), old(calls), specs, nodes, run.err)
                && r == if run.err.Some? then Err(run.err.value) else Ok(nodes[..])
      ensures err.None? && builders != [] ==> SlotsFilled(Entries(old(Starts())), old(calls), specs[..], nodes[..])
    {
      ghost var muts, starts := Mutations(), Starts();
      specs := new Option<CreateSpec>[|builders|](_ => None);
      nodes := new Option<Node>[|builders|](_ => None);
      assert Separate() && Mutations() == muts && Starts() == starts;
      if err.Some? {
        return Err(err.value), specs, nodes;
      }
      if |builders| == 0 {
        return Ok([]), specs, nodes;
      }
      var e := RunChain(specs, nodes);
      r := if e.Some? then Err(e.value) else Ok(nodes[..]);
      SlotsAreFilled(Entries(starts), muts, starts, old(calls), specs, nodes);
    }

    /** Every check passes and every hook calls next, by what the builders hold at the start. */
    ghost predicate EveryoneProceeds(es: seq<Entry>) {
      forall k :: 0 <= k < |es| ==> Proceeds(es[k], validId)
    }

    /**
     * MAIN: on the objects, for hooks that keep errors. There is one batch insert, of every builder's
     * specification, if every check passes and every hook calls next, and otherwise none; unless it
     * succeeds an error is returned and no mutation gets marked done; and after a success all
     * mutations are done and all slots filled.
     */
    method SaveAllOrNothing() returns (r: Result<seq<Option<Node>>, Error>)
      requires Separate() && err.None? && builders != []
      requires forall k, j :: 0 <= k < |builders| && 0 <= j < |builders[k].hooks| ==> KeepsErrors(builders[k].hooks[j])
      modifies this`calls, builders, Mutations()
      ensures var es := Entries(old(Starts()));
              && calls == old(calls) + (if EveryoneProceeds(es) then [Plan(es)] else [])
              && (r.Ok? <==> EveryoneProceeds(es) && Answer(Plan(es)).None? && forall k :: 0 <= k < |es| ==> LetsThrough(es[k]))
              && (!EveryoneProceeds(es) || Answer(Plan(es)).Some? ==>
                    forall k :: 0 <= k < |builders| ==> builders[k].mutation.done ==> old(builders[k].mutation.done))
              && (EveryoneProceeds(es) ==> |calls| == |old(calls)| + 1 && BatchOf(calls[|old(calls)|], es))
              && (r.Ok? ==> AllRead(es, r.value, GeneratedSince(old(calls))))
      ensures r.Ok? ==> |r.value| == |builders|
                        && forall k :: 0 <= k < |builders| ==> r.value[k].Some? && builders[k].mutation.done
    {
      hide CreateBulk.Finished, CreateBulk.SlotsFilled, CreateBulk.Plan, Slots, Slot, Chain, FirstStop, BatchOf, KeepsErrors, Honest,
           CreateBulk.Created, CreateBulk.EveryoneProceeds;
      ghost var es, muts, starts := Entries(Starts()), Mutations(), Starts();
      HonestBuilders(starts);
      WhoProceeds(es);
      AllOrNothing(es, validId, Answer(Plan(es)));
      var specs, nodes;
      r, specs, nodes := Save();
      FinishedCalls(es, muts, starts, old(calls), specs, nodes);
      DoneOnlyIfMarked(es, muts, starts, old(calls), specs, nodes);
      if EveryoneProceeds(es) {
        PlanIsBatch(es);
        if r.Ok? {
          AllFilled(es, old(calls), specs[..], nodes[..]);
        }
      }
    }

    lemma HonestBuilders(starts: seq<Start>)
      requires |starts| == |builders|
      requires forall k, j :: 0 <= k < |builders| && 0 <= j < |builders[k].hooks| ==> KeepsErrors(builders[k].hooks[j])
      ensures forall k :: 0 <= k < |builders| ==> Honest(Entries(starts)[k])
    {
      hide KeepsErrors, Honest;
      forall k | 0 <= k < |builders| ensures Honest(Entries(starts)[k]) {
        HonestHooks(builders[k].hooks, starts[k].content, starts[k].content, true);
      }
    }

    lemma WhoProceeds(es: seq<Entry>)
      ensures EveryoneProceeds(es) <==> forall k :: 0 <= k < |es| ==> Proceeds(es[k], validId)
      ensures EveryoneProceeds(es) ==> FirstStop(es, validId, 0) == |es| && forall k :: 0 <= k < |es| ==> es[k].Entered?
    {
    }

    /** After a batch that succeeded for everyone, every node has its keys and its id. */
    lemma AllFilled(es: seq<Entry>, calls0: seq<seq<CreateSpec>>, specs: seq<Option<CreateSpec>>, nodes: seq<Option<Node>>)
      requires |es| == |specs| == |nodes| && EveryoneProceeds(es) && SlotsFilled(es, calls0, specs, nodes)
      requires |calls| == |calls0| + 1 && batch(calls[|calls0|]).Ok?
      requires forall k: nat :: k in Chain(es, validId, None, 0).marked <==> k < |es|
      ensures AllRead(es, nodes, GeneratedSince(calls0))
    {
      hide Chain, FirstStop, BatchOf, Slot;
      WhoProceeds(es);
      var generated := GeneratedSince(calls0);
      forall k | 0 <= k < |es| ensures ReadAs(nodes[k], es[k].passed, generated.value(k)) {
        SlotHolds(specs[k], nodes[k], es[k].passed, true, Some(generated.value(k)));
      }
    }

    /** Reading Finished: only marked mutations are newly done, and the first turn to stop fills no slot. */
    lemma DoneOnlyIfMarked(es: seq<Entry>, muts: seq<Mutation>, starts: seq<Start>, calls0: seq<seq<CreateSpec>>,
                           specs: array<Option<CreateSpec>>, nodes: array<Option<Node>>)
      requires |es| == |muts| == |starts| == |builders| == specs.Length == nodes.Length
      requires var run := Chain(es, validId, Answer(Plan(es)), 0);
               Finished(0, Plan(es), es, muts, starts, calls0, specs, nodes, run.err)
      ensures var run := Chain(es, validId, Answer(Plan(es)), 0);
              forall k :: 0 <= k < |es| ==>
                && (builders[k].mutation.done ==> k in run.marked || starts[k].done)
                && (k in run.marked ==> builders[k].mutation.done && nodes[k].Some?)
    {
      var run, c := Chain(es, validId, Answer(Plan(es)), 0), FirstStop(es, validId, 0);
      ChainMeaning(es, validId, Answer(Plan(es)), 0);
      forall k | 0 <= k < |es|
        ensures builders[k].mutation.done ==> k in run.marked || starts[k].done
        ensures k in run.marked ==> builders[k].mutation.done && nodes[k].Some?
      {
        if k < c {
          assert Created(k, muts[k], starts[k], es[k], k in run.marked, Generated(Plan(es), run.batched), specs[k], nodes[k]);
        } else if k == c {
          assert Stopped(k, muts[k], starts[k], es[k], specs[k], nodes[k]);
        } else {
          assert Untouched(k, muts[k], starts[k], specs[k], nodes[k]);
        }
      }
    }
  }
}
