/**
 * Transactions: the driver that absorbs the builders' own commits, commit and rollback hooks,
 * and the store with its pending writes.
 */
module Transaction {
  import opened Common

  /** Crash is a panic; no hook sees it on its way out. */
  datatype Error = TxDone | TxStarted | BeginFailed(code: nat) | FromHook(code: nat) | Crash

  /** A completion hook: its name and what it does when it is called. */
  datatype Hook = Hook(id: nat, prog: Prog)

  /**
   * What a hook does, as a tree: it executes statements, registers hooks, calls next and ends the
   * transaction itself, as often as it likes, and goes on one way or another by what each call
   * returned.
   */
  datatype Prog =
    | Return(what: Outcome)
    | Exec(write: string, ok: Prog, failed: Prog)     // a statement through the transaction
    | Register(commit: bool, h: Hook, rest: Prog)     // tx.OnCommit or tx.OnRollback
    | Next(ok: Prog, failed: Prog)                    // the committer or rollbacker it was given
    | EndTx(commit: bool, ok: Prog, failed: Prog)     // tx.Commit or tx.Rollback

  /** What a hook returns; Last is what the latest call returned. */
  datatype Outcome = Nil | Last | Own(code: nat) | Panic

  datatype End = Running | Committed | RolledBack

  /**
   * The store as others see it, the underlying transaction, and the hook lists. `log` remembers
   * every write that was executed, `trace` every hook that was entered, with the nesting depth left.
   */
  datatype State = State(store: seq<string>, pending: seq<string>, end: End,
                         onCommit: seq<Hook>, onRollback: seq<Hook>,
                         log: seq<string>, trace: seq<(nat, nat)>)

  function Begin(store: seq<string>): State {
    State(store, [], Running, [], [], [], [])
  }

  // ---- The underlying transaction ----

  function BaseExec(s: State, w: string): (Option<Error>, State) {
    if s.end.Running? then (None, s.(pending := s.pending + [w], log := s.log + [w])) else (Some(TxDone), s)
  }

  function EndOf(commit: bool): End {
    if commit then Committed else RolledBack
  }

  function BaseEnd(s: State, commit: bool): (Option<Error>, State) {
    if !s.end.Running? then (Some(TxDone), s)
    else (None, s.(store := if commit then s.store + s.pending else s.store, pending := [], end := EndOf(commit)))
  }

  function Registered(s: State, commit: bool, h: Hook): State {
    if commit then s.(onCommit := s.onCommit + [h]) else s.(onRollback := s.onRollback + [h])
  }

  function ListOf(s: State, commit: bool): seq<Hook> {
    if commit then s.onCommit else s.onRollback
  }

  // ---- Tx.Commit and Tx.Rollback: the hooks in the list wrapped around the base ----

  function Entered(s: State, depth: nat, id: nat): State {
    s.(trace := s.trace + [(depth, id)])
  }

  function Returned(what: Outcome, last: Option<Error>): Option<Error> {
    match what
    case Nil => None
    case Last => last
    case Own(code) => Some(FromHook(code))
    case Panic => Some(Crash)
  }

  /**
   * Running a copy of a list. `depth` is how often commits and rollbacks may still nest: hooks that
   * end the transaction from inside run the lists again, and when the stack is used up the program
   * crashes.
   */
  function RunHooks(hooks: seq<Hook>, commit: bool, depth: nat, s: State): (Option<Error>, State)
    decreases depth, |hooks|, 0
  {
    if hooks == [] then BaseEnd(s, commit)
    else RunProg(hooks[0].prog, hooks[1..], commit, depth, None, Entered(s, depth, hooks[0].id))
  }

  function RunProg(p: Prog, inner: seq<Hook>, commit: bool, depth: nat, last: Option<Error>, s: State): (Option<Error>, State)
    decreases depth, |inner|, 1, p
  {
    match p
    case Return(what) => (Returned(what, last), s)
    case Register(c, h, rest) => RunProg(rest, inner, commit, depth, last, Registered(s, c, h))
    case Exec(w, ok, failed) =>
      var (e, s1) := BaseExec(s, w);
      RunProg(if e.None? then ok else failed, inner, commit, depth, e, s1)
    case Next(ok, failed) =>
      var (e, s1) := RunHooks(inner, commit, depth, s);
      if e == Some(Crash) then (e, s1) else RunProg(if e.None? then ok else failed, inner, commit, depth, e, s1)
    case EndTx(c, ok, failed) =>
      if depth == 0 then (Some(Crash), s)
      else
        var (e, s1) := RunHooks(ListOf(s, c), c, depth - 1, s);
        if e == Some(Crash) then (e, s1) else RunProg(if e.None? then ok else failed, inner, commit, depth, e, s1)
  }

  /** What a builder does with the driver it is given: it may open, use, commit and roll back. */
  datatype DriverCall = OpenTx | DriverExec(write: string) | DriverCommit | DriverRollback | DriverClose

  /** What a user of the transaction does. */
  datatype Op =
    | Build(calls: seq<DriverCall>)
    | OnCommit(h: Hook)
    | OnRollback(h: Hook)
    | Commit
    | Rollback
    | NestedTx

  function RunCalls(calls: seq<DriverCall>, s: State): State {
    if calls == [] then s
    else
      var s1 := RunCalls(calls[..|calls| - 1], s);
      match calls[|calls| - 1]
      case DriverExec(w) => BaseExec(s1, w).1
      case _ => s1
  }

  function RunOp(op: Op, depth: nat, s: State): (Option<Error>, State) {
    match op
    case Build(calls) => (None, RunCalls(calls, s))
    case OnCommit(h) => (None, Registered(s, true, h))
    case OnRollback(h) => (None, Registered(s, false, h))
    case Commit => RunHooks(s.onCommit, true, depth, s)
    case Rollback => RunHooks(s.onRollback, false, depth, s)
    case NestedTx => (Some(TxStarted), s)
  }

  function RunOps(ops: seq<Op>, depth: nat, s: State): State {
    if ops == [] then s else RunOp(ops[|ops| - 1], depth, RunOps(ops[..|ops| - 1], depth, s)).1
  }

  // ---- Safety over whole runs ----

  /** The store shows all executed writes, in order, or none; and all only after a commit. */
  ghost predicate Safe(start: seq<string>, s: State) {
    match s.end
    case Running => s.store == start && s.pending == s.log
    case Committed => s.store == start + s.log
    case RolledBack => s.store == start
  }

  /** An ended transaction stays as it ended. */
  ghost predicate Advances(s: State, s': State) {
    && (!s.end.Running? ==> s'.end == s.end && s'.store == s.store && s'.log == s.log)
    && s.log <= s'.log
    && s.onCommit <= s'.onCommit && s.onRollback <= s'.onRollback
  }

  lemma {:induction false} HooksAreSafe(start: seq<string>, hooks: seq<Hook>, commit: bool, depth: nat, s: State)
    ensures Safe(start, s) ==> Safe(start, RunHooks(hooks, commit, depth, s).1)
    ensures Advances(s, RunHooks(hooks, commit, depth, s).1)
    decreases depth, |hooks|, 0
  {
    if hooks != [] {
      ProgIsSafe(start, hooks[0].prog, hooks[1..], commit, depth, None, Entered(s, depth, hooks[0].id));
    }
  }

  lemma {:induction false} ProgIsSafe(start: seq<string>, p: Prog, inner: seq<Hook>, commit: bool, depth: nat,
                                      last: Option<Error>, s: State)
    ensures var s' := RunProg(p, inner, commit, depth, last, s).1; (Safe(start, s) ==> Safe(start, s')) && Advances(s, s')
    decreases depth, |inner|, 1, p
  {
    match p
    case Return(_) =>
    case Register(c, h, rest) => ProgIsSafe(start, rest, inner, commit, depth, last, Registered(s, c, h));
    case Exec(w, ok, failed) =>
      var (e, s1) := BaseExec(s, w);
      ProgIsSafe(start, if e.None? then ok else failed, inner, commit, depth, e, s1);
    case Next(ok, failed) =>
      HooksAreSafe(start, inner, commit, depth, s);
      var (e, s1) := RunHooks(inner, commit, depth, s);
      if e != Some(Crash) {
        ProgIsSafe(start, if e.None? then ok else failed, inner, commit, depth, e, s1);
      }
    case EndTx(c, ok, failed) =>
      if depth > 0 {
        HooksAreSafe(start, ListOf(s, c), c, depth - 1, s);
        var (e, s1) := RunHooks(ListOf(s, c), c, depth - 1, s);
        if e != Some(Crash) {
          ProgIsSafe(start, if e.None? then ok else failed, inner, commit, depth, e, s1);
        }
      }
  }

  lemma {:induction false} BuildIsSafe(start: seq<string>, calls: seq<DriverCall>, s: State)
    requires Safe(start, s)
    ensures Safe(start, RunCalls(calls, s)) && Advances(s, RunCalls(calls, s))
  {
    if calls != [] {
      BuildIsSafe(start, calls[..|calls| - 1], s);
    }
  }

  /**
   * MAIN: for every run of operations and whatever the hooks do, even if they end the transaction
   * themselves, drop errors or crash, the store is the starting store until a commit, exactly the
   * starting store followed by all executed writes in order after one, and the starting store again
   * after a rollback; and an ended transaction stays ended.
   */
  lemma {:induction false} RunsAreSafe(start: seq<string>, ops: seq<Op>, depth: nat)
    ensures Safe(start, RunOps(ops, depth, Begin(start)))
    ensures ops != [] ==> Advances(RunOps(ops[..|ops| - 1], depth, Begin(start)), RunOps(ops, depth, Begin(start)))
  {
    if ops != [] {
      var s := RunOps(ops[..|ops| - 1], depth, Begin(start));
      RunsAreSafe(start, ops[..|ops| - 1], depth);
      match ops[|ops| - 1]
      case Build(calls) => BuildIsSafe(start, calls, s);
      case Commit => HooksAreSafe(start, s.onCommit, true, depth, s);
      case Rollback => HooksAreSafe(start, s.onRollback, false, depth, s);
      case _ =>
    }
  }

  /** The writes of a builder's calls. */
  function Writes(calls: seq<DriverCall>): seq<string> {
    if calls == [] then []
    else Writes(calls[..|calls| - 1]) + (if calls[|calls| - 1].DriverExec? then [calls[|calls| - 1].write] else [])
  }

  /**
   * MAIN: a builder that opens, commits and rolls back as it likes only adds its writes to the
   * running transaction; it neither ends it nor publishes anything.
   */
  lemma {:induction false} BuildersNeverEndIt(calls: seq<DriverCall>, s: State)
    ensures RunCalls(calls, s) ==
            if s.end.Running? then s.(pending := s.pending + Writes(calls), log := s.log + Writes(calls)) else s
  {
    if calls != [] {
      BuildersNeverEndIt(calls[..|calls| - 1], s);
    }
  }

  // ---- Which hooks run ----

  ghost predicate Among(hooks: seq<Hook>, id: nat) {
    exists k :: 0 <= k < |hooks| && hooks[k].id == id
  }

  /** Between two states no run of this depth entered a hook that is not on the list. */
  ghost predicate EnteredOnly(hooks: seq<Hook>, depth: nat, s: State, s': State) {
    && s.trace <= s'.trace
    && forall k :: |s.trace| <= k < |s'.trace| ==>
         s'.trace[k].0 <= depth && (s'.trace[k].0 == depth ==> Among(hooks, s'.trace[k].1))
  }

  /**
   * MAIN: Commit and Rollback work on a copy of the list, so a hook registered while they run is
   * kept on the list but never entered by this run, whatever the hooks do. Only a commit or rollback
   * that a hook starts from inside, at a smaller depth, takes a copy of its own.
   */
  lemma {:induction false} OnlyTheCopyRuns(hooks: seq<Hook>, commit: bool, depth: nat, s: State)
    ensures EnteredOnly(hooks, depth, s, RunHooks(hooks, commit, depth, s).1)
    decreases depth, |hooks|, 0
  {
    if hooks != [] {
      OnlyTheCopyRunsProg(hooks[0].prog, hooks[1..], commit, depth, None, Entered(s, depth, hooks[0].id));
      forall id | Among(hooks[1..], id) ensures Among(hooks, id) {
        var k :| 0 <= k < |hooks[1..]| && hooks[1..][k].id == id;
        assert hooks[k + 1].id == id;
      }
      assert Among(hooks, hooks[0].id);
    }
  }

  lemma {:induction false} OnlyTheCopyRunsProg(p: Prog, inner: seq<Hook>, commit: bool, depth: nat, last: Option<Error>, s: State)
    ensures EnteredOnly(inner, depth, s, RunProg(p, inner, commit, depth, last, s).1)
    decreases depth, |inner|, 1, p
  {
    match p
    case Return(_) =>
    case Register(c, h, rest) => OnlyTheCopyRunsProg(rest, inner, commit, depth, last, Registered(s, c, h));
    case Exec(w, ok, failed) =>
      var (e, s1) := BaseExec(s, w);
      OnlyTheCopyRunsProg(if e.None? then ok else failed, inner, commit, depth, e, s1);
    case Next(ok, failed) =>
      OnlyTheCopyRuns(inner, commit, depth, s);
      var (e, s1) := RunHooks(inner, commit, depth, s);
      if e != Some(Crash) {
        OnlyTheCopyRunsProg(if e.None? then ok else failed, inner, commit, depth, e, s1);
      }
    case EndTx(c, ok, failed) =>
      if depth > 0 {
        OnlyTheCopyRuns(ListOf(s, c), c, depth - 1, s);
        var (e, s1) := RunHooks(ListOf(s, c), c, depth - 1, s);
        if e != Some(Crash) {
          OnlyTheCopyRunsProg(if e.None? then ok else failed, inner, commit, depth, e, s1);
        }
      }
  }

  // ---- What a commit comes to ----

  /** A run up to the first time that the underlying transaction is ended, if it gets there. */
  datatype Ahead = Ends(commit: bool, at: State) | Stays(err: Option<Error>, at: State)

  /** Looking ahead from a running transaction: no statement fails, and nothing is ended yet. */
  function AheadHooks(hooks: seq<Hook>, commit: bool, depth: nat, s: State): Ahead
    decreases depth, |hooks|, 0
  {
    if hooks == [] then Ends(commit, s)
    else AheadProg(hooks[0].prog, hooks[1..], commit, depth, None, Entered(s, depth, hooks[0].id))
  }

  function AheadProg(p: Prog, inner: seq<Hook>, commit: bool, depth: nat, last: Option<Error>, s: State): Ahead
    decreases depth, |inner|, 1, p
  {
    match p
    case Return(what) => Stays(Returned(what, last), s)
    case Register(c, h, rest) => AheadProg(rest, inner, commit, depth, last, Registered(s, c, h))
    case Exec(w, ok, _) => AheadProg(ok, inner, commit, depth, None, BaseExec(s, w).1)
    case Next(ok, failed) =>
      (match AheadHooks(inner, commit, depth, s)
       case Ends(c, at) => Ends(c, at)
       case Stays(e, at) =>
         if e == Some(Crash) then Stays(e, at)
         else AheadProg(if e.None? then ok else failed, inner, commit, depth, e, at))
    case EndTx(c, ok, failed) =>
      if depth == 0 then Stays(Some(Crash), s)
      else
        match AheadHooks(ListOf(s, c), c, depth - 1, s)
        case Ends(c', at) => Ends(c', at)
        case Stays(e, at) =>
          if e == Some(Crash) then Stays(e, at)
          else AheadProg(if e.None? then ok else failed, inner, commit, depth, e, at)
  }

  /** What a run from `s` amounts to, given what lies ahead. */
  ghost predicate Decided(ahead: Ahead, s: State, err: Option<Error>, s': State) {
    && ahead.at.end.Running? && ahead.at.store == s.store
    && match ahead
       case Ends(c, at) => s'.end == EndOf(c) && s'.store == if c then at.store + at.pending else at.store
       case Stays(e, at) => err == e && s' == at
  }

  /**
   * MAIN: from a running transaction, Commit and Rollback end it iff the look ahead meets an end, in
   * the way of that first end, be it the one at the bottom of the hooks or one that a hook makes
   * itself; a commit publishes what was executed up to there. Otherwise the transaction keeps
   * running, unpublished. What the hooks do afterwards changes neither.
   */
  lemma {:induction false} FirstEndDecides(hooks: seq<Hook>, commit: bool, depth: nat, s: State)
    requires s.end.Running?
    ensures var (err, s') := RunHooks(hooks, commit, depth, s);
            Decided(AheadHooks(hooks, commit, depth, s), s, err, s')
    decreases depth, |hooks|, 0
  {
    if hooks != [] {
      FirstEndDecidesProg(hooks[0].prog, hooks[1..], commit, depth, None, Entered(s, depth, hooks[0].id));
    }
  }

  lemma {:induction false} FirstEndDecidesProg(p: Prog, inner: seq<Hook>, commit: bool, depth: nat, last: Option<Error>, s: State)
    requires s.end.Running?
    ensures var (err, s') := RunProg(p, inner, commit, depth, last, s);
            Decided(AheadProg(p, inner, commit, depth, last, s), s, err, s')
    decreases depth, |inner|, 1, p, 0
  {
    match p
    case Return(_) =>
    case Register(c, h, rest) => FirstEndDecidesProg(rest, inner, commit, depth, last, Registered(s, c, h));
    case Exec(w, ok, _) => FirstEndDecidesProg(ok, inner, commit, depth, None, BaseExec(s, w).1);
    case Next(ok, failed) =>
      FirstEndDecides(inner, commit, depth, s);
      var (e, s1) := RunHooks(inner, commit, depth, s);
      GoOn(AheadHooks(inner, commit, depth, s), ok, failed, inner, commit, depth, e, s1);
    case EndTx(c, ok, failed) =>
      if depth > 0 {
        FirstEndDecides(ListOf(s, c), c, depth - 1, s);
        var (e, s1) := RunHooks(ListOf(s, c), c, depth - 1, s);
        GoOn(AheadHooks(ListOf(s, c), c, depth - 1, s), ok, failed, inner, commit, depth, e, s1);
      }
  }

  /** After a call that returned: an end stands; otherwise the look ahead goes on. */
  lemma {:induction false} GoOn(ahead: Ahead, ok: Prog, failed: Prog, inner: seq<Hook>, commit: bool, depth: nat,
                                e: Option<Error>, s: State)
    requires ahead.Ends? ==> !s.end.Running?
    requires ahead.Stays? ==> s.end.Running?
    ensures var p := if e.None? then ok else failed;
            && (ahead.Ends? ==> var s' := RunProg(p, inner, commit, depth, e, s).1; s'.end == s.end && s'.store == s.store)
            && (ahead.Stays? ==> var (err, s') := RunProg(p, inner, commit, depth, e, s);
                                 Decided(AheadProg(p, inner, commit, depth, e, s), s, err, s'))
    decreases depth, |inner|, 1, if e.None? then ok else failed, 1
  {
    var p := if e.None? then ok else failed;
    if ahead.Ends? {
      ProgIsSafe([], p, inner, commit, depth, e, s);
    } else {
      FirstEndDecidesProg(p, inner, commit, depth, e, s);
    }
  }

  /** A hook that rolls back before it calls next: Commit does not commit, whatever the hook does then. */
  lemma RollbackFromInside(id: nat, ok: Prog, failed: Prog, depth: nat, s: State)
    requires s.end.Running? && s.onRollback == [] && depth > 0
    ensures var s' := RunHooks([Hook(id, EndTx(false, ok, failed))], true, depth, s).1; s'.end.RolledBack? && s'.store == s.store
  {
    var hooks := [Hook(id, EndTx(false, ok, failed))];
    FirstEndDecides(hooks, true, depth, s);
    assert AheadHooks(hooks, true, depth, s) == AheadProg(hooks[0].prog, hooks[1..], true, depth, None, Entered(s, depth, id));
  }

  /** A hook that returns without calling next: Commit reports no error, and nothing is committed. */
  lemma SilentlyUncommitted(id: nat, depth: nat, s: State)
    requires s.end.Running?
    ensures RunHooks([Hook(id, Return(Nil))], true, depth, s) == (None, Entered(s, depth, id))
  {
  }

  // ---- Hooks in the usual style ----

  /** One statement of a hook that leaves the ending to next; its error is returned, unless dropped. */
  datatype Step = DoExec(write: string, drop: bool) | DoRegister(commit: bool, h: Hook) | DoNext(drop: bool) | DoFail(code: nat)

  datatype PlainHook = PlainHook(id: nat, script: seq<Step>)

  function ProgOf(script: seq<Step>): Prog {
    if script == [] then Return(Nil)
    else
      var rest := ProgOf(script[1..]);
      match script[0]
      case DoExec(w, drop) => Exec(w, rest, if drop then rest else Return(Last))
      case DoRegister(c, h) => Register(c, h, rest)
      case DoNext(drop) => Next(rest, if drop then rest else Return(Last))
      case DoFail(code) => Return(Own(code))
  }

  function HooksOf(ps: seq<PlainHook>): (hooks: seq<Hook>)
    ensures |hooks| == |ps|
  {
    if ps == [] then [] else [Hook(ps[0].id, ProgOf(ps[0].script))] + HooksOf(ps[1..])
  }

  lemma HooksOfTail(ps: seq<PlainHook>)
    requires ps != []
    ensures HooksOf(ps)[0] == Hook(ps[0].id, ProgOf(ps[0].script)) && HooksOf(ps)[1..] == HooksOf(ps[1..])
  {
  }

  /** In a running transaction the script gets to call next. */
  predicate Reaches(script: seq<Step>) {
    script != [] && (script[0].DoNext? || (!script[0].DoFail? && Reaches(script[1..])))
  }

  predicate AllReach(ps: seq<PlainHook>) {
    ps == [] || (Reaches(ps[0].script) && AllReach(ps[1..]))
  }

  /** What the hooks execute before they first call next, outermost first. */
  function LeadWrites(ps: seq<PlainHook>): seq<string> {
    if ps == [] then [] else Lead(ps[0].script) + LeadWrites(ps[1..])
  }

  function Lead(script: seq<Step>): seq<string> {
    if script == [] || script[0].DoNext? then []
    else (if script[0].DoExec? then [script[0].write] else []) + Lead(script[1..])
  }

  /** The part of a script from its first call of next on. */
  function FromNext(script: seq<Step>): (tail: seq<Step>)
    requires Reaches(script)
    ensures tail != [] && tail[0].DoNext?
  {
    if script[0].DoNext? then script else FromNext(script[1..])
  }

  /** No step of the script makes it return an error; statements fail in an ended transaction only. */
  predicate Clean(script: seq<Step>, running: bool, nextOk: bool) {
    forall k :: 0 <= k < |script| ==>
      match script[k]
      case DoExec(_, drop) => running || drop
      case DoRegister(_, _) => true
      case DoNext(drop) => nextOk || drop
      case DoFail(_) => false
  }

  /** Called once the transaction has ended, the hooks report no error. */
  predicate CleanEnded(ps: seq<PlainHook>) {
    ps != [] && Clean(ps[0].script, false, CleanEnded(ps[1..]))
  }

  /** The hooks end the transaction and report no error. */
  predicate CleanEnding(ps: seq<PlainHook>)
    requires AllReach(ps)
  {
    ps == [] ||
      var tail := FromNext(ps[0].script);
      (CleanEnding(ps[1..]) || tail[0].drop) && Clean(tail[1..], false, CleanEnded(ps[1..]))
  }

  /** The hooks do not end the transaction, and report no error. */
  predicate CleanStaying(ps: seq<PlainHook>) {
    ps != [] && Clean(ps[0].script, true, CleanStaying(ps[1..]))
  }

  lemma CleanStep(script: seq<Step>, running: bool, nextOk: bool)
    requires script != []
    ensures Clean(script, running, nextOk) <==>
            Clean(script[..1], running, nextOk) && Clean(script[1..], running, nextOk)
  {
    assert script == script[..1] + script[1..];
    assert forall k :: 0 < k < |script| ==> script[k] == script[1..][k - 1];
  }

  /** A script without an end of its own, run over hooks whose answer is known. */
  lemma {:induction false} EndedScript(script: seq<Step>, ps: seq<PlainHook>, commit: bool, depth: nat, last: Option<Error>, s: State)
    requires !s.end.Running?
    ensures var (err, s') := RunProg(ProgOf(script), HooksOf(ps), commit, depth, last, s);
            && s'.end == s.end && s'.store == s.store && err != Some(Crash)
            && (err.None? <==> Clean(script, false, CleanEnded(ps)))
    decreases |ps|, 1, |script|
  {
    if script != [] {
      CleanStep(script, false, CleanEnded(ps));
      match script[0]
      case DoExec(w, drop) => if drop { EndedScript(script[1..], ps, commit, depth, Some(TxDone), s); }
      case DoRegister(c, h) => EndedScript(script[1..], ps, commit, depth, last, Registered(s, c, h));
      case DoNext(drop) =>
        EndedHooks(ps, commit, depth, s);
        var (e, s1) := RunHooks(HooksOf(ps), commit, depth, s);
        if e.None? || drop {
          EndedScript(script[1..], ps, commit, depth, e, s1);
        }
      case DoFail(_) =>
    }
  }

  lemma {:induction false} EndedHooks(ps: seq<PlainHook>, commit: bool, depth: nat, s: State)
    requires !s.end.Running?
    ensures var (err, s') := RunHooks(HooksOf(ps), commit, depth, s);
            && s'.end == s.end && s'.store == s.store && err != Some(Crash)
            && (err.None? <==> CleanEnded(ps))
    decreases |ps|, 0
  {
    if ps != [] {
      HooksOfTail(ps);
      EndedScript(ps[0].script, ps[1..], commit, depth, None, Entered(s, depth, ps[0].id));
    }
  }

  /** The outcome of a script in a running transaction, over the hooks inside it. */
  ghost predicate ScriptOutcome(script: seq<Step>, ps: seq<PlainHook>, commit: bool, s: State, err: Option<Error>, s': State) {
    && err != Some(Crash)
    && if Reaches(script) && AllReach(ps) then
         var tail := FromNext(script);
         && s'.end == EndOf(commit)
         && s'.store == (if commit then s.store + s.pending + (Lead(script) + LeadWrites(ps)) else s.store)
         && (err.None? <==> (CleanEnding(ps) || tail[0].drop) && Clean(tail[1..], false, CleanEnded(ps)))
       else
         && s'.end.Running? && s'.store == s.store
         && (err.None? <==> Clean(script, true, CleanStaying(ps)))
  }

  ghost predicate HooksOutcome(ps: seq<PlainHook>, commit: bool, s: State, err: Option<Error>, s': State) {
    && err != Some(Crash)
    && s'.end == (if AllReach(ps) then EndOf(commit) else Running)
    && s'.store == (if AllReach(ps) && commit then s.store + s.pending + LeadWrites(ps) else s.store)
    && (err.None? <==> if AllReach(ps) then CleanEnding(ps) else CleanStaying(ps))
  }

  lemma {:induction false} RunningScript(script: seq<Step>, ps: seq<PlainHook>, commit: bool, depth: nat, last: Option<Error>, s: State)
    requires s.end.Running?
    ensures var (err, s') := RunProg(ProgOf(script), HooksOf(ps), commit, depth, last, s);
            ScriptOutcome(script, ps, commit, s, err, s')
    decreases |ps|, 1, |script|
  {
    if script != [] {
      CleanStep(script, true, CleanStaying(ps));
      match script[0]
      case DoExec(w, drop) =>
        var s1 := BaseExec(s, w).1;
        RunningScript(script[1..], ps, commit, depth, None, s1);
        Regroup(s.store, s.pending, w, Lead(script[1..]) + LeadWrites(ps));
        assert [w] + Lead(script[1..]) + LeadWrites(ps) == [w] + (Lead(script[1..]) + LeadWrites(ps));
      case DoRegister(c, h) =>
        RunningScript(script[1..], ps, commit, depth, last, Registered(s, c, h));
        assert [] + Lead(script[1..]) == Lead(script[1..]);
      case DoNext(drop) => AtNext(script, ps, commit, depth, last, s);
      case DoFail(_) =>
    }
  }

  lemma Regroup(a: seq<string>, b: seq<string>, w: string, c: seq<string>)
    ensures a + (b + [w]) + c == a + b + ([w] + c)
  {
  }

  lemma {:induction false} AtNext(script: seq<Step>, ps: seq<PlainHook>, commit: bool, depth: nat, last: Option<Error>, s: State)
    requires s.end.Running? && script != [] && script[0].DoNext?
    ensures var (err, s') := RunProg(ProgOf(script), HooksOf(ps), commit, depth, last, s);
            ScriptOutcome(script, ps, commit, s, err, s')
    decreases |ps|, 1, |script|, 0
  {
    CleanStep(script, true, CleanStaying(ps));
    EndsIff(ps, commit, depth, s);
    var (e, s1) := RunHooks(HooksOf(ps), commit, depth, s);
    assert [] + LeadWrites(ps) == LeadWrites(ps);
    if e.None? || script[0].drop {
      if AllReach(ps) {
        EndedScript(script[1..], ps, commit, depth, e, s1);
      } else {
        RunningScript(script[1..], ps, commit, depth, e, s1);
      }
    }
  }

  /**
   * MAIN: hooks in the usual style, run from a running transaction. Commit commits, and Rollback
   * rolls back, iff every hook gets to call next; a commit publishes what was executed before and
   * by the hooks on the way in. An error is reported in exactly the cases that CleanEnding and
   * CleanStaying rule out.
   */
  lemma {:induction false} EndsIff(ps: seq<PlainHook>, commit: bool, depth: nat, s: State)
    requires s.end.Running?
    ensures var (err, s') := RunHooks(HooksOf(ps), commit, depth, s); HooksOutcome(ps, commit, s, err, s')
    decreases |ps|, 0
  {
    if ps == [] {
      assert s.store + s.pending + [] == s.store + s.pending;
    } else {
      HooksOfTail(ps);
      RunningScript(ps[0].script, ps[1..], commit, depth, None, Entered(s, depth, ps[0].id));
    }
  }

  /**
   * MAIN: Commit and Rollback report no error in exactly the cases in which they did their work, iff
   * the hooks that all get to call next let its success through, or those that do not all get
   * there report an error.
   */
  lemma TruthfulIff(ps: seq<PlainHook>, commit: bool, depth: nat, s: State)
    requires s.end.Running?
    ensures var (err, s') := RunHooks(HooksOf(ps), commit, depth, s);
            (err.None? <==> s'.end == EndOf(commit)) <==> if AllReach(ps) then CleanEnding(ps) else !CleanStaying(ps)
  {
    EndsIff(ps, commit, depth, s);
  }

  /** No hook drops an error. */
  predicate Strict(ps: seq<PlainHook>) {
    forall k, j :: 0 <= k < |ps| && 0 <= j < |ps[k].script| ==>
      var step := ps[k].script[j]; (step.DoExec? || step.DoNext? ==> !step.drop)
  }

  predicate OnlyRegisters(script: seq<Step>) {
    forall k :: 0 <= k < |script| ==> script[k].DoRegister?
  }

  predicate Calls(p: PlainHook) {
    exists k :: 0 <= k < |p.script| && p.script[k].DoNext?
  }

  predicate Fails(p: PlainHook) {
    exists k :: 0 <= k < |p.script| && p.script[k].DoFail?
  }

  /** Some hook fails, and every hook around it calls next. */
  predicate FailReached(ps: seq<PlainHook>) {
    exists k :: 0 <= k < |ps| && Fails(ps[k]) && forall j :: 0 <= j < k ==> Calls(ps[j])
  }

  lemma StrictTail(ps: seq<PlainHook>)
    requires ps != [] && Strict(ps)
    ensures Strict(ps[1..])
    ensures forall j :: 0 <= j < |ps[0].script| ==>
              (ps[0].script[j].DoExec? || ps[0].script[j].DoNext? ==> !ps[0].script[j].drop)
  {
    assert forall k :: 0 <= k < |ps[1..]| ==> ps[1..][k] == ps[k + 1];
  }

  lemma {:induction false} FromNextSuffix(script: seq<Step>)
    requires Reaches(script)
    ensures exists k :: 0 <= k < |script| && FromNext(script) == script[k..]
  {
    if script[0].DoNext? {
      assert FromNext(script) == script[0..];
    } else {
      FromNextSuffix(script[1..]);
      var k :| 0 <= k < |script[1..]| && FromNext(script[1..]) == script[1..][k..];
      assert FromNext(script) == script[k + 1..];
    }
  }

  lemma ReachesCalls(script: seq<Step>)
    requires Reaches(script)
    ensures exists k :: 0 <= k < |script| && script[k].DoNext?
  {
    FromNextSuffix(script);
  }

  /** Once the transaction has ended, strict hooks that call next cannot report success. */
  lemma {:induction false} StrictNeverCleanEnded(ps: seq<PlainHook>)
    requires Strict(ps) && AllReach(ps)
    ensures !CleanEnded(ps)
  {
    if ps != [] {
      StrictTail(ps);
      StrictNeverCleanEnded(ps[1..]);
      ReachesCalls(ps[0].script);
    }
  }

  lemma {:induction false} CallsReaches(script: seq<Step>)
    requires forall k :: 0 <= k < |script| ==> !script[k].DoFail?
    ensures Reaches(script) <==> exists k :: 0 <= k < |script| && script[k].DoNext?
  {
    if script != [] {
      CallsReaches(script[1..]);
      assert forall k :: 0 < k < |script| ==> script[k] == script[1..][k - 1];
      if Reaches(script[1..]) {
        var k :| 0 <= k < |script[1..]| && script[1..][k].DoNext?;
        assert script[k + 1].DoNext?;
      }
    }
  }

  lemma FailReachedTail(ps: seq<PlainHook>)
    requires ps != []
    ensures FailReached(ps) <==> Fails(ps[0]) || (Calls(ps[0]) && FailReached(ps[1..]))
  {
    if Calls(ps[0]) && FailReached(ps[1..]) {
      var k :| 0 <= k < |ps[1..]| && Fails(ps[1..][k]) && forall j :: 0 <= j < k ==> Calls(ps[1..][j]);
      assert forall j :: 0 < j < k + 1 ==> ps[j] == ps[1..][j - 1];
      assert Fails(ps[k + 1]);
    }
    if FailReached(ps) && !Fails(ps[0]) {
      var k :| 0 <= k < |ps| && Fails(ps[k]) && forall j :: 0 <= j < k ==> Calls(ps[j]);
      assert ps[1..][k - 1] == ps[k];
      assert forall j :: 0 <= j < k - 1 ==> ps[1..][j] == ps[j + 1];
    }
  }

  lemma StrictStaying(ps: seq<PlainHook>)
    requires ps != [] && Strict(ps) && !AllReach(ps)
    requires !AllReach(ps[1..]) ==> (!CleanStaying(ps[1..]) <==> FailReached(ps[1..]))
    ensures !CleanStaying(ps) <==> FailReached(ps)
  {
    StrictTail(ps);
    FailReachedTail(ps);
    if !Fails(ps[0]) {
      CallsReaches(ps[0].script);
    }
  }

  /**
   * For hooks that drop no error: they let a success through iff, after first calling next, they only
   * register hooks; and they report an error without ending the transaction iff one of them fails
   * and all around it call next.
   */
  lemma {:induction false} StrictHooks(ps: seq<PlainHook>)
    requires Strict(ps)
    ensures AllReach(ps) ==>
              (CleanEnding(ps) <==>
               forall k :: 0 <= k < |ps| ==> Reaches(ps[k].script) && OnlyRegisters(FromNext(ps[k].script)[1..]))
    ensures !AllReach(ps) ==> (!CleanStaying(ps) <==> FailReached(ps))
  {
    if ps != [] {
      StrictTail(ps);
      StrictHooks(ps[1..]);
      if AllReach(ps) {
        assert forall k :: 0 < k < |ps| ==> ps[k] == ps[1..][k - 1];
        StrictNeverCleanEnded(ps[1..]);
        FromNextSuffix(ps[0].script);
      } else {
        StrictStaying(ps);
      }
    }
  }

  /** TruthfulIff for hooks that drop no error, in terms of their steps. */
  lemma TruthfulStrictIff(ps: seq<PlainHook>, commit: bool, depth: nat, s: State)
    requires s.end.Running? && Strict(ps)
    ensures var (err, s') := RunHooks(HooksOf(ps), commit, depth, s);
            (err.None? <==> s'.end == EndOf(commit)) <==>
            if AllReach(ps) then forall k :: 0 <= k < |ps| ==> Reaches(ps[k].script) && OnlyRegisters(FromNext(ps[k].script)[1..])
            else FailReached(ps)
  {
    TruthfulIff(ps, commit, depth, s);
    StrictHooks(ps);
  }

  /** A hook that fails after calling next: Commit reports its error, and everything is published. */
  lemma CommittedWithError(id: nat, code: nat, depth: nat, s: State)
    requires s.end.Running?
    ensures var (err, s') := RunHooks([Hook(id, Next(Return(Own(code)), Return(Last)))], true, depth, s);
            err == Some(FromHook(code)) && s'.end.Committed? && s'.store == s.store + s.pending
  {
    var hooks := [Hook(id, Next(Return(Own(code)), Return(Last)))];
    var s0 := Entered(s, depth, id);
    assert hooks[1..] == [];
    assert RunHooks(hooks, true, depth, s) == RunProg(hooks[0].prog, hooks[1..], true, depth, None, s0);
    assert RunHooks([], true, depth, s0) == BaseEnd(s0, true);
  }

  function Ids(ps: seq<PlainHook>, depth: nat): seq<(nat, nat)> {
    if ps == [] then [] else [(depth, ps[0].id)] + Ids(ps[1..], depth)
  }

  /** Hooks that get to call next are all entered, the first registered outermost. */
  lemma {:induction false} EntersAll(ps: seq<PlainHook>, commit: bool, depth: nat, s: State)
    requires s.end.Running? && AllReach(ps)
    ensures s.trace + Ids(ps, depth) <= RunHooks(HooksOf(ps), commit, depth, s).1.trace
    decreases |ps|, 0
  {
    if ps != [] {
      HooksOfTail(ps);
      ScriptEntersAll(ps[0].script, ps[1..], commit, depth, None, Entered(s, depth, ps[0].id));
      RegroupTrace(s.trace, (depth, ps[0].id), Ids(ps[1..], depth));
    }
  }

  lemma RegroupTrace(a: seq<(nat, nat)>, x: (nat, nat), b: seq<(nat, nat)>)
    ensures a + [x] + b == a + ([x] + b)
  {
  }

  lemma {:induction false} ScriptEntersAll(script: seq<Step>, ps: seq<PlainHook>, commit: bool, depth: nat, last: Option<Error>, s: State)
    requires s.end.Running? && Reaches(script) && AllReach(ps)
    ensures s.trace + Ids(ps, depth) <= RunProg(ProgOf(script), HooksOf(ps), commit, depth, last, s).1.trace
    decreases |ps|, 1, |script|
  {
    match script[0]
    case DoExec(w, _) => ScriptEntersAll(script[1..], ps, commit, depth, None, BaseExec(s, w).1);
    case DoRegister(c, h) => ScriptEntersAll(script[1..], ps, commit, depth, last, Registered(s, c, h));
    case DoNext(drop) =>
      EntersAll(ps, commit, depth, s);
      var (e, s1) := RunHooks(HooksOf(ps), commit, depth, s);
      var rest := ProgOf(script[1..]);
      OnlyTheCopyRunsProg(if e.None? || drop then rest else Return(Last), HooksOf(ps), commit, depth, e, s1);
  }

  // ---- From registrations to a commit ----

  /** Building, registering hooks and asking for a nested transaction; no ending yet. */
  predicate Prepares(op: Op) {
    !op.Commit? && !op.Rollback?
  }

  /** The hooks of the registrations of one kind, in order. */
  function HooksGiven(ops: seq<Op>, commit: bool): seq<Hook> {
    if ops == [] then []
    else
      HooksGiven(ops[..|ops| - 1], commit)
      + (match ops[|ops| - 1]
         case OnCommit(h) => if commit then [h] else []
         case OnRollback(h) => if commit then [] else [h]
         case _ => [])
  }

  /** What the builders of a run execute, in order. */
  function Built(ops: seq<Op>): seq<string> {
    if ops == [] then []
    else Built(ops[..|ops| - 1]) + (if ops[|ops| - 1].Build? then Writes(ops[|ops| - 1].calls) else [])
  }

  /**
   * MAIN: after any run without an end the lists hold exactly the registered hooks in the order of
   * their registration, the pending writes are those of the builders in order, no hook has been
   * entered, and nothing is published.
   */
  lemma {:induction false} PreparedState(start: seq<string>, ops: seq<Op>, depth: nat)
    requires forall k :: 0 <= k < |ops| ==> Prepares(ops[k])
    ensures var s := RunOps(ops, depth, Begin(start));
            && s.onCommit == HooksGiven(ops, true) && s.onRollback == HooksGiven(ops, false)
            && s.pending == Built(ops) == s.log && s.end.Running? && s.store == start && s.trace == []
  {
    if ops != [] {
      PreparedState(start, ops[..|ops| - 1], depth);
      match ops[|ops| - 1]
      case Build(calls) => BuildersNeverEndIt(calls, RunOps(ops[..|ops| - 1], depth, Begin(start)));
      case _ =>
    }
  }

  /**
   * MAIN: registering hooks in the usual style and then ending the transaction. Commit, or Rollback,
   * runs the hooks registered for it: it ends the transaction iff every one of them gets to call
   * next, publishing on a commit what the builders and then the hooks on their way in executed, and
   * it then enters them in the order of their registration; and it reports no error in exactly the
   * cases that CleanEnding and CleanStaying name.
   */
  lemma RegisteredHooksRun(start: seq<string>, ops: seq<Op>, commit: bool, ps: seq<PlainHook>, depth: nat)
    requires forall k :: 0 <= k < |ops| ==> Prepares(ops[k])
    requires HooksGiven(ops, commit) == HooksOf(ps)
    ensures var (err, s') := RunOp(if commit then Commit else Rollback, depth, RunOps(ops, depth, Begin(start)));
            && s'.end == (if AllReach(ps) then EndOf(commit) else Running)
            && s'.store == (if AllReach(ps) && commit then start + Built(ops) + LeadWrites(ps) else start)
            && (err.None? <==> if AllReach(ps) then CleanEnding(ps) else CleanStaying(ps))
            && (AllReach(ps) ==> Ids(ps, depth) <= s'.trace)
  {
    var s := RunOps(ops, depth, Begin(start));
    PreparedState(start, ops, depth);
    EndsIff(ps, commit, depth, s);
    if AllReach(ps) {
      EntersAll(ps, commit, depth, s);
      assert [] + Ids(ps, depth) == Ids(ps, depth);
    }
  }

  // ---- The objects ----

  /** The underlying database transaction. */
  class DbTx {
    var store: seq<string>
    var pending: seq<string>
    var end: End
    ghost var log: seq<string>

    constructor (store: seq<string>)
      ensures this.store == store && pending == [] && end == Running && log == []
    {
      this.store, pending, end, log := store, [], Running, [];
    }

    method Exec(w: string) returns (err: Option<Error>)
      modifies this
      ensures end == old(end) && store == old(store)
      ensures if old(end).Running? then err.None? && pending == old(pending) + [w] && log == old(log) + [w]
              else err == Some(TxDone) && pending == old(pending) && log == old(log)
    {
      if !end.Running? {
        return Some(TxDone);
      }
      pending := pending + [w];
      log := log + [w];
      return None;
    }

    method Finish(commit: bool) returns (err: Option<Error>)
      modifies this
      ensures log == old(log)
      ensures if !old(end).Running? then err == Some(TxDone) && end == old(end) && store == old(store) && pending == old(pending)
              else err.None? && pending == [] && end == (if commit then Committed else RolledBack)
                   && store == if commit then old(store) + old(pending) else old(store)
    {
      if !end.Running? {
        return Some(TxDone);
      }
      if commit {
        store := store + pending;
      }
      pending := [];
      end := if commit then Committed else RolledBack;
      return None;
    }
  }

  /** The driver that builders inside a transaction get; it is also their transaction. */
  class TxDriver {
    const tx: DbTx
    var onCommit: seq<Hook>
    var onRollback: seq<Hook>
    ghost var trace: seq<(nat, nat)>

    ghost function View(): State
      reads this, tx
    {
      State(tx.store, tx.pending, tx.end, onCommit, onRollback, tx.log, trace)
    }

    constructor (tx: DbTx)
      requires tx.pending == [] && tx.end.Running? && tx.log == []
      ensures this.tx == tx && View() == Begin(tx.store)
    {
      this.tx := tx;
      onCommit, onRollback, trace := [], [], [];
    }

    /** Opening a transaction through this driver gives the driver itself. */
    method OpenTx() returns (t: TxDriver)
      ensures t == this
    {
      return this;
    }

    method Exec(w: string) returns (err: Option<Error>)
      modifies tx
      ensures (err, View()) == BaseExec(old(View()), w)
    {
      err := tx.Exec(w);
    }

    method NopCommit() returns (err: Option<Error>)
      ensures err.None?
    {
      return None;
    }

    method NopRollback() returns (err: Option<Error>)
      ensures err.None?
    {
      return None;
    }

    /** What a builder does with the driver: any mixture of opening, using and ending transactions. */
    method Build(calls: seq<DriverCall>)
      modifies tx
      ensures View() == RunCalls(calls, old(View()))
    {
      var current := this;
      for k := 0 to |calls|
        invariant current == this
        invariant View() == RunCalls(calls[..k], old(View()))
      {
        assert calls[..k + 1][..k] == calls[..k];
        match calls[k]
        case OpenTx => current := current.OpenTx();
        case DriverExec(w) => var err := current.Exec(w);
        case DriverCommit => var err := current.NopCommit();
        case DriverRollback => var err := current.NopRollback();
        case DriverClose =>
      }
      assert calls[..|calls|] == calls;
    }

    method AddHook(commit: bool, h: Hook)
      modifies this
      ensures onCommit == if commit then old(onCommit) + [h] else old(onCommit)
      ensures onRollback == if commit then old(onRollback) else old(onRollback) + [h]
      ensures View() == Registered(old(View()), commit, h)
    {
      if commit {
        onCommit := onCommit + [h];
      } else {
        onRollback := onRollback + [h];
      }
    }

    /** Tx.Commit and Tx.Rollback: copy the list, then run the copy around the underlying end. */
    method End(commit: bool, depth: nat) returns (err: Option<Error>)
      modifies this, tx
      ensures (err, View()) == RunHooks(ListOf(old(View()), commit), commit, depth, old(View()))
      decreases depth, |ListOf(View(), commit)|, 2
    {
      var hooks := if commit then onCommit else onRollback;
      err := Call(hooks, commit, depth);
    }

    /** The committer or rollbacker that the hooks of the list wrap. */
    method Call(hooks: seq<Hook>, commit: bool, depth: nat) returns (err: Option<Error>)
      modifies this, tx
      ensures (err, View()) == RunHooks(hooks, commit, depth, old(View()))
      decreases depth, |hooks|, 0
    {
      if |hooks| == 0 {
        err := tx.Finish(commit);
      } else {
        trace := trace + [(depth, hooks[0].id)];
        err := CallProg(hooks[0].prog, hooks[1..], commit, depth, None);
      }
    }

    /** One hook: it goes on by what each of its calls returns, and a crash passes it by. */
    method CallProg(p: Prog, inner: seq<Hook>, commit: bool, depth: nat, last: Option<Error>) returns (err: Option<Error>)
      modifies this, tx
      ensures (err, View()) == RunProg(p, inner, commit, depth, last, old(View()))
      decreases depth, |inner|, 1, p
    {
      match p {
        case Return(what) =>
          err := Returned(what, last);
        case Register(c, h, rest) =>
          AddHook(c, h);
          err := CallProg(rest, inner, commit, depth, last);
        case Exec(w, ok, failed) =>
          var e := Exec(w);
          err := CallProg(if e.None? then ok else failed, inner, commit, depth, e);
        case Next(ok, failed) =>
          var e := Call(inner, commit, depth);
          if e == Some(Crash) {
            return e;
          }
          err := CallProg(if e.None? then ok else failed, inner, commit, depth, e);
        case EndTx(c, ok, failed) =>
          if depth == 0 {
            return Some(Crash);
          }
          var e := End(c, depth - 1);
          if e == Some(Crash) {
            return e;
          }
          err := CallProg(if e.None? then ok else failed, inner, commit, depth, e);
      }
    }
  }

  /** A client over a plain driver, or over a transactional one. */
  datatype Driver = Direct(store: seq<string>) | InTx(driver: TxDriver)

  /** Client.Tx: refused on a transactional client; `begin` is the database's refusal, if any. */
  method StartTx(d: Driver, begin: Option<nat>) returns (r: Result<TxDriver, Error>)
    ensures r.Err? <==> d.InTx? || begin.Some?
    ensures r.Err? ==> r.error == if d.InTx? then TxStarted else BeginFailed(begin.value)
    ensures r.Ok? ==> fresh(r.value) && fresh(r.value.tx) && r.value.View() == Begin(d.store)
  {
    if d.InTx? {
      return Err(TxStarted);
    }
    if begin.Some? {
      return Err(BeginFailed(begin.value));
    }
    var tx := new DbTx(d.store);
    var driver := new TxDriver(tx);
    return Ok(driver);
  }

  /**
   * Any run of operations on a new transaction ends in the state that RunOps says, and safely; and
   * without an end among them every registered hook is on its list, in order.
   */
  method Use(store: seq<string>, ops: seq<Op>, depth: nat) returns (driver: TxDriver)
    ensures fresh(driver) && driver.View() == RunOps(ops, depth, Begin(store)) && Safe(store, driver.View())
    ensures (forall k :: 0 <= k < |ops| ==> Prepares(ops[k])) ==>
              driver.onCommit == HooksGiven(ops, true) && driver.onRollback == HooksGiven(ops, false)
  {
    var r := StartTx(Direct(store), None);
    driver := r.value;
    for k := 0 to |ops|
      invariant fresh(driver) && fresh(driver.tx)
      invariant driver.View() == RunOps(ops[..k], depth, Begin(store))
    {
      assert ops[..k + 1][..k] == ops[..k];
      match ops[k]
      case Build(calls) => driver.Build(calls);
      case OnCommit(h) => driver.AddHook(true, h);
      case OnRollback(h) => driver.AddHook(false, h);
      case Commit => var err := driver.End(true, depth);
      case Rollback => var err := driver.End(false, depth);
      case NestedTx =>
        var nested := StartTx(InTx(driver), None);
        assert nested == Err(TxStarted);
    }
    assert ops[..|ops|] == ops;
    RunsAreSafe(store, ops, depth);
    if forall k :: 0 <= k < |ops| ==> Prepares(ops[k]) {
      PreparedState(store, ops, depth);
    }
  }
}
