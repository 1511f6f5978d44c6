/** The key root mutation, above all its memoised lookup of the values before the mutation. */
module OldValue {
  import opened Common
  import EdgeMutation
  import UpdateSpec

  datatype KeyRoot = KeyRoot(id: string, derivationScheme: string, sealedSeed: seq<bv8>)

  datatype Error = PostMutation | Database(msg: string) | NotUpdateOne | NoId | Querying(cause: Error)

  type Answer = Result<KeyRoot, Error>

  /** A lookup, with what the database would answer at that moment; or the mutation being completed. */
  datatype Event = Ask(db: Answer) | Complete

  datatype State = State(done: bool, memo: Option<Answer>, queries: nat)

  const FRESH := State(false, None, 0)

  /** once.Do: the first lookup decides, and only it may read the database. */
  function Step(s: State, e: Event): State {
    match e
    case Complete => s.(done := true)
    case Ask(db) =>
      if s.memo.Some? then s
      else if s.done then s.(memo := Some(Err(PostMutation)))
      else s.(memo := Some(db), queries := s.queries + 1)
  }

  function Run(events: seq<Event>): State {
    if events == [] then FRESH else Step(Run(events[..|events| - 1]), events[|events| - 1])
  }

  /** What every lookup of a run returned. */
  function Replies(events: seq<Event>): seq<Answer> {
    if events == [] then []
    else
      Replies(events[..|events| - 1])
      + (match events[|events| - 1]
         case Complete => []
         case Ask(_) => [Run(events).memo.GetOr(Err(PostMutation))])
  }

  /** The first lookup: what it saw, and whether the mutation was complete by then. */
  function FirstAsk(events: seq<Event>, done: bool): Option<(Answer, bool)> {
    if events == [] then None
    else
      match events[0]
      case Ask(db) => Some((db, done))
      case Complete => FirstAsk(events[1..], true)
  }

  /** What the whole run's lookups return. */
  function Decided(events: seq<Event>): Option<Answer> {
    match FirstAsk(events, false)
    case None => None
    case Some((db, done)) => Some(if done then Err(PostMutation) else db)
  }

  /**
   * The memo is what the first lookup decided: the database's answer at that moment if the mutation
   * was not complete yet, and an error otherwise; the database is read once in the first case and
   * never in the second.
   */
  lemma {:induction false} MemoIsFirst(events: seq<Event>)
    ensures Run(events).memo == Decided(events)
    ensures Run(events).done <==> Complete in events
    ensures Run(events).queries == match FirstAsk(events, false)
                                   case None => 0
                                   case Some((_, done)) => if done then 0 else 1
  {
    if events != [] {
      var init, last := events[..|events| - 1], events[|events| - 1];
      MemoIsFirst(init);
      assert events == init + [last];
      assert Run(events) == Step(Run(init), last);
      FirstAskSnoc(init, last, false);
      hide FirstAsk, Run;
    }
  }

  /** MAIN: over any run, every lookup returns what the first one decided, even after completion. */
  lemma {:induction false} LookupsAreMemoised(events: seq<Event>)
    ensures forall k :: 0 <= k < |Replies(events)| ==> Decided(events) == Some(Replies(events)[k])
  {
    if events != [] {
      var init, last := events[..|events| - 1], events[|events| - 1];
      assert events == init + [last];
      LookupsAreMemoised(init);
      FirstAskSnoc(init, last, false);
      MemoIsFirst(events);
      hide FirstAsk;
    }
  }

  lemma {:induction false} FirstAskSnoc(events: seq<Event>, e: Event, done: bool)
    ensures FirstAsk(events + [e], done) ==
            if FirstAsk(events, done).Some? then FirstAsk(events, done)
            else if e.Ask? then Some((e.db, done || Complete in events)) else None
  {
    if events != [] {
      assert (events + [e])[1..] == events[1..] + [e];
      assert events == [events[0]] + events[1..];
      if events[0].Complete? {
        FirstAskSnoc(events[1..], e, true);
      }
    } else {
      assert [e][1..] == [];
    }
  }

  datatype Op = OpCreate | OpUpdate | OpUpdateOne | OpDelete | OpDeleteOne

  /** The mutation: its two edges, and the closure that withKeyRootID installs. */
  class KeyRootMutation {
    const op: Op
    const id: Option<string>
    const wallets: EdgeMutation.EdgeFields<UpdateSpec.NodeID>
    const walletCounters: EdgeMutation.EdgeFields<UpdateSpec.NodeID>
    var done: bool
    var once: bool
    var value: Option<KeyRoot>
    var err: Option<Error>
    ghost var queries: nat

    ghost predicate Valid()
      reads this
    {
      (once <==> value.Some? || err.Some?) && !(value.Some? && err.Some?)
    }

    ghost function View(): State
      requires Valid()
      reads this
    {
      State(done, if !once then None else if err.Some? then Some(Err(err.value)) else Some(Ok(value.value)), queries)
    }

    constructor (op: Op, id: Option<string>)
      ensures Valid() && View() == FRESH && this.op == op && this.id == id
      ensures fresh(wallets) && fresh(walletCounters) && wallets != walletCounters
      ensures wallets.Change() == EdgeMutation.Untouched() && walletCounters.Change() == EdgeMutation.Untouched()
    {
      this.op, this.id := op, id;
      done, once, value, err, queries := false, false, None, None, 0;
      var w := new EdgeMutation.EdgeFields<UpdateSpec.NodeID>();
      var c := new EdgeMutation.EdgeFields<UpdateSpec.NodeID>();
      wallets, walletCounters := w, c;
    }

    /** The closure; `db` is what Get would answer now. */
    method Lookup(db: Answer) returns (r: Answer)
      requires Valid()
      modifies this
      ensures Valid() && View() == Step(old(View()), Ask(db)) && View().memo == Some(r)
    {
      if !once {
        once := true;
        if done {
          err := Some(PostMutation);
        } else {
          queries := queries + 1;
          match db {
            case Ok(v) => value := Some(v);
            case Err(e) => err := Some(e);
          }
        }
      }
      r := if err.Some? then Err(err.value) else Ok(value.value);
    }

    method Finish()
      requires Valid()
      modifies this
      ensures Valid() && View() == Step(old(View()), Complete)
    {
      done := true;
    }

    /** OldDerivationScheme: only on an update of one node with an id. */
    method OldDerivationScheme(db: Answer) returns (r: Result<string, Error>)
      requires Valid()
      modifies this
      ensures Valid()
      ensures op != OpUpdateOne || id.None? ==> View() == old(View())
                                                && r == Err(if op != OpUpdateOne then NotUpdateOne else NoId)
      ensures op == OpUpdateOne && id.Some? ==>
                View() == Step(old(View()), Ask(db))
                && r == match View().memo.value case Ok(v) => Ok(v.derivationScheme) case Err(e) => Err(Querying(e))
    {
      if op != OpUpdateOne {
        return Err(NotUpdateOne);
      }
      if id.None? {
        return Err(NoId);
      }
      var old_ := Lookup(db);
      match old_ {
        case Ok(v) => r := Ok(v.derivationScheme);
        case Err(e) => r := Err(Querying(e));
      }
    }

    /** Any run of lookups and completions returns the replies that Replies says. */
    method Play(events: seq<Event>) returns (replies: seq<Answer>)
      requires Valid() && View() == FRESH
      modifies this
      ensures Valid() && View() == Run(events) && replies == Replies(events)
    {
      replies := [];
      for k := 0 to |events|
        invariant Valid() && View() == Run(events[..k]) && replies == Replies(events[..k])
      {
        assert events[..k + 1][..k] == events[..k];
        match events[k]
        case Ask(db) =>
          var r := Lookup(db);
          replies := replies + [r];
        case Complete =>
          Finish();
      }
      assert events[..|events|] == events;
    }
  }
}
