/**
 * Running a builder under its hooks. A mutator is a function of the mutation it is handed and of
 * the world; the world holds the builder's own mutation cell, the store, and the mutations on
 * which the builder operation has been executed.
 */
module Hooks {
  import opened Common

  /** A mutation of the builder's own type, or of some other entity. */
  datatype AnyMutation<T> = Typed(m: T) | Foreign

  /** A value of the type the builder returns, or of some other type. */
  datatype AnyValue<V> = Own(v: V) | Alien

  datatype World<T, S> = World(cell: T, store: S, log: seq<T>)

  datatype Error = Uninitialized | UnexpectedMutation | UnexpectedValue | Failed(msg: string)

  type Reply<V> = Result<AnyValue<V>, Error>

  type Mutator<!T, !S, !V> = (AnyMutation<T>, World<T, S>) -> (Reply<V>, World<T, S>)

  type Hook<!T, !S, !V> = Mutator<T, S, V> -> Mutator<T, S, V>

  /** The builder operation: it reads the builder's own mutation cell. */
  type Exec<!T, !S, !V> = (T, S) -> (Result<V, Error>, S)

  function RunExec<T, S, V>(exec: Exec<T, S, V>, w: World<T, S>): (Reply<V>, World<T, S>) {
    var (r, s) := exec(w.cell, w.store);
    (match r case Ok(v) => Ok(Own(v)) case Err(e) => Err(e),
     World(w.cell, s, w.log + [w.cell]))
  }

  /** The innermost mutator: copy the mutation it was handed into the builder, then execute. */
  function Base<T, S, V>(exec: Exec<T, S, V>): Mutator<T, S, V> {
    (m: AnyMutation<T>, w: World<T, S>) =>
      if m.Foreign? then (Err(UnexpectedMutation), w) else RunExec(exec, w.(cell := m.m))
  }

  /** Hook 0 outermost. */
  function Onion<T, S, V>(hooks: seq<Hook<T, S, V>>, base: Mutator<T, S, V>): Mutator<T, S, V> {
    if hooks == [] then base else hooks[0](Onion(hooks[1..], base))
  }

  /** The type assertion on the value that comes out. */
  function Asserted<V>(r: Reply<V>): Result<V, Error> {
    match r
    case Ok(Own(v)) => Ok(v)
    case Ok(Alien) => Err(UnexpectedValue)
    case Err(e) => Err(e)
  }

  function Values<X>(hooks: seq<Option<X>>): (vs: seq<X>)
    requires forall k :: 0 <= k < |hooks| ==> hooks[k].Some?
    ensures |vs| == |hooks|
  {
    seq(|hooks|, k requires 0 <= k < |hooks| => hooks[k].value)
  }

  /**
   * withHooks. A nil hook anywhere in the list is an error and nothing runs; otherwise the result
   * is that of the onion on the builder's own mutation, also when there are no hooks at all.
   */
  method WithHooks<T, S, V>(exec: Exec<T, S, V>, hooks: seq<Option<Hook<T, S, V>>>, w: World<T, S>)
    returns (r: Result<V, Error>, w': World<T, S>)
    ensures (exists k :: 0 <= k < |hooks| && hooks[k].None?) ==> r == Err(Uninitialized) && w' == w
    ensures (forall k :: 0 <= k < |hooks| ==> hooks[k].Some?) ==>
              var out := Onion(Values(hooks), Base(exec))(Typed(w.cell), w);
              && (out.0.Err? ==> r == Err(out.0.error))
              && (out.0.Ok? && out.0.value.Own? ==> r == Ok(out.0.value.v))
              && (out.0.Ok? && out.0.value.Alien? ==> r == Err(UnexpectedValue))
              && w' == out.1
    ensures hooks == [] ==> r == exec(w.cell, w.store).0
                            && w' == World(w.cell, exec(w.cell, w.store).1, w.log + [w.cell])
  {
    if |hooks| == 0 {
      var out := RunExec(exec, w);
      return Asserted(out.0), out.1;
    }
    var mut := Base(exec);
    var i := |hooks|;
    while i > 0
      invariant 0 <= i <= |hooks|
      invariant forall k :: i <= k < |hooks| ==> hooks[k].Some?
      invariant mut == Onion(Values(hooks[i..]), Base(exec))
    {
      i := i - 1;
      if hooks[i].None? {
        return Err(Uninitialized), w;
      }
      assert Values(hooks[i..])[1..] == Values(hooks[i + 1..]);
      mut := hooks[i].value(mut);
    }
    assert hooks[0..] == hooks;
    var out := mut(Typed(w.cell), w);
    return Asserted(out.0), out.1;
  }

  /**
   * withInterceptors: the same onion around a querier, without a check for nil. The query takes
   * the place of the mutation.
   */
  method WithInterceptors<T, S, V>(qr: Mutator<T, S, V>, inters: seq<Hook<T, S, V>>, q: T, w: World<T, S>)
    returns (r: Result<V, Error>, w': World<T, S>)
    ensures var out := Onion(inters, qr)(Typed(q), w);
            && (out.0.Err? ==> r == Err(out.0.error))
            && (out.0.Ok? && out.0.value.Own? ==> r == Ok(out.0.value.v))
            && (out.0.Ok? && out.0.value.Alien? ==> r == Err(UnexpectedValue))
            && w' == out.1
  {
    var querier := qr;
    var i := |inters|;
    while i > 0
      invariant 0 <= i <= |inters|
      invariant querier == Onion(inters[i..], qr)
    {
      i := i - 1;
      assert inters[i..][1..] == inters[i + 1..];
      querier := inters[i](querier);
    }
    assert inters[0..] == inters;
    var out := querier(Typed(q), w);
    return Asserted(out.0), out.1;
  }

  /** MAIN: wrapping a list in two pieces is wrapping the first around the second. */
  lemma {:induction false} OnionComposes<T, S, V>(a: seq<Hook<T, S, V>>, b: seq<Hook<T, S, V>>, base: Mutator<T, S, V>)
    ensures Onion(a + b, base) == Onion(a, Onion(b, base))
  {
    if a == [] {
      assert a + b == b;
    } else {
      assert (a + b)[1..] == a[1..] + b;
      OnionComposes(a[1..], b, base);
    }
  }

  /** A client's hook list; builders take the list as it is when they are made. */
  class Client<!T, !S, !V> {
    var hooks: seq<Hook<T, S, V>>

    constructor ()
      ensures hooks == []
    {
      hooks := [];
    }

    /** The hooks registered so far wrap around the ones registered now. */
    method Use(more: seq<Hook<T, S, V>>)
      modifies this
      ensures hooks == old(hooks) + more
      ensures forall base :: Onion(hooks, base) == Onion(old(hooks), Onion(more, base))
    {
      hooks := hooks + more;
      forall base: Mutator<T, S, V> ensures Onion(hooks, base) == Onion(old(hooks), Onion(more, base)) {
        OnionComposes(old(hooks), more, base);
      }
    }
  }

  // ---- Hooks that call next exactly once ----

  /**
   * What such a hook does before and after. Before, it sees the mutation it was given and passes one
   * on; it may edit the builder's own mutation in place and write to the store. After, it sees the
   * mutation it was given and the reply of next, and replies.
   */
  datatype Layer<!T, !S, !V> = Layer(
    pre: (AnyMutation<T>, T, S) -> (AnyMutation<T>, T, S),
    post: (AnyMutation<T>, Reply<V>, T, S) -> (Reply<V>, T, S))

  function Around<T, S, V>(l: Layer<T, S, V>): Hook<T, S, V> {
    (next: Mutator<T, S, V>) =>
      (m: AnyMutation<T>, w: World<T, S>) =>
        var (m1, t1, s1) := l.pre(m, w.cell, w.store);
        var (r, w1) := next(m1, w.(cell := t1, store := s1));
        var (r1, t2, s2) := l.post(m, r, w1.cell, w1.store);
        (r1, w1.(cell := t2, store := s2))
  }

  function Arounds<T, S, V>(ls: seq<Layer<T, S, V>>): (hs: seq<Hook<T, S, V>>)
    ensures |hs| == |ls|
  {
    if ls == [] then [] else [Around(ls[0])] + Arounds(ls[1..])
  }

  /** On the way in: layer 0 first. */
  function Inward<T, S, V>(ls: seq<Layer<T, S, V>>, m: AnyMutation<T>, t: T, s: S): (AnyMutation<T>, T, S) {
    if ls == [] then (m, t, s)
    else
      var (m1, t1, s1) := ls[0].pre(m, t, s);
      Inward(ls[1..], m1, t1, s1)
  }

  /** On the way out: layer 0 last, each with the mutation that it was given on the way in from (m, t0, s0). */
  function Outward<T, S, V>(ls: seq<Layer<T, S, V>>, m: AnyMutation<T>, t0: T, s0: S, r: Reply<V>, t: T, s: S): (Reply<V>, T, S) {
    if ls == [] then (r, t, s)
    else
      var (m1, t1, s1) := ls[0].pre(m, t0, s0);
      var (r1, t2, s2) := Outward(ls[1..], m1, t1, s1, r, t, s);
      ls[0].post(m, r1, t2, s2)
  }

  /**
   * MAIN: under hooks that call next once, the operation is executed exactly once, on the mutation
   * that the innermost hook passed on, which the builder then holds; the replies pass the hooks in
   * reverse. If that mutation is of another entity, nothing is executed.
   */
  lemma {:induction false} LayersRunOnce<T, S, V>(ls: seq<Layer<T, S, V>>, exec: Exec<T, S, V>, m: AnyMutation<T>, w: World<T, S>)
    ensures var (m', t', s') := Inward(ls, m, w.cell, w.store);
            var (r, w') := Onion(Arounds(ls), Base(exec))(m, w);
            if m'.Foreign? then
              var (r1, t1, s1) := Outward(ls, m, w.cell, w.store, Err(UnexpectedMutation), t', s');
              r == r1 && w' == World(t1, s1, w.log)
            else
              var (v, s2) := exec(m'.m, s');
              var reply := match v case Ok(x) => Ok(Own(x)) case Err(e) => Err(e);
              var (r1, t1, s1) := Outward(ls, m, w.cell, w.store, reply, m'.m, s2);
              r == r1 && w' == World(t1, s1, w.log + [m'.m])
  {
    if ls != [] {
      var (m1, t1, s1) := ls[0].pre(m, w.cell, w.store);
      assert Arounds(ls)[1..] == Arounds(ls[1..]);
      LayersRunOnce(ls[1..], exec, m1, w.(cell := t1, store := s1));
    }
  }

  /** After next, the layer hands the reply on as it is, whatever else it does. */
  ghost predicate HandsOn<T(!new), S(!new), V(!new)>(l: Layer<T, S, V>) {
    forall m, r, t, s :: l.post(m, r, t, s).0 == r
  }

  lemma {:induction false} OutwardHandsOn<T(!new), S(!new), V(!new)>(ls: seq<Layer<T, S, V>>, m: AnyMutation<T>, t0: T, s0: S,
                                                                    r: Reply<V>, t: T, s: S)
    requires forall k :: 0 <= k < |ls| ==> HandsOn(ls[k])
    ensures Outward(ls, m, t0, s0, r, t, s).0 == r
  {
    if ls != [] {
      var (m1, t1, s1) := ls[0].pre(m, t0, s0);
      OutwardHandsOn(ls[1..], m1, t1, s1, r, t, s);
      var (r1, t2, s2) := Outward(ls[1..], m1, t1, s1, r, t, s);
      assert HandsOn(ls[0]) && ls[0].post(m, r1, t2, s2).0 == r1;
    }
  }

  /** The same hooks as a client holds them, none of them nil. */
  function Held<X>(hooks: seq<X>): (held: seq<Option<X>>)
    ensures |held| == |hooks| && forall k :: 0 <= k < |hooks| ==> held[k] == Some(hooks[k])
  {
    seq(|hooks|, k requires 0 <= k < |hooks| => Some(hooks[k]))
  }

  /**
   * MAIN: the whole way of an operation under hooks that call next once and hand its reply on. It is
   * executed once, on the mutation that the innermost hook passed on, and the caller gets exactly
   * what it returned, value or error; for a mutation of another entity it is not executed, and the
   * caller is told.
   */
  method SaveUnderLayers<T(!new), S(!new), V(!new)>(exec: Exec<T, S, V>, ls: seq<Layer<T, S, V>>, w: World<T, S>)
    returns (r: Result<V, Error>, w': World<T, S>)
    requires forall k :: 0 <= k < |ls| ==> HandsOn(ls[k])
    ensures var (m', t', s') := Inward(ls, Typed(w.cell), w.cell, w.store);
            if m'.Foreign? then r == Err(UnexpectedMutation) && w'.log == w.log
            else r == exec(m'.m, s').0 && w'.log == w.log + [m'.m]
  {
    var hooks := Arounds(ls);
    r, w' := WithHooks(exec, Held(hooks), w);
    assert Values(Held(hooks)) == hooks;
    LayersRunOnce(ls, exec, Typed(w.cell), w);
    var (m', t', s') := Inward(ls, Typed(w.cell), w.cell, w.store);
    if m'.Foreign? {
      OutwardHandsOn(ls, Typed(w.cell), w.cell, w.store, Err(UnexpectedMutation), t', s');
    } else {
      var (v, s2) := exec(m'.m, s');
      OutwardHandsOn(ls, Typed(w.cell), w.cell, w.store, match v case Ok(x) => Ok(Own(x)) case Err(e) => Err(e), m'.m, s2);
    }
  }

  // ---- Hooks that call next any number of times ----

  /** What a hook does next: reply, or call next, on a mutation of its choice. */
  datatype Choice<!T, !S, !V> = Answer(r: Reply<V>) | Again(m: T, s: S)

  /**
   * A hook that decides after each reply of next whether to call it again, at least `least` and at
   * most `most` times.
   */
  datatype Caller<!T, !S, !V> = Caller(least: nat, most: nat,
                                       choose: (T, seq<Reply<V>>, S) -> Choice<T, S, V>, last: Reply<V>)

  ghost predicate CallsAtLeast<T(!new), S(!new), V(!new)>(h: Caller<T, S, V>) {
    h.least <= h.most && forall m, replies, s :: |replies| < h.least ==> h.choose(m, replies, s).Again?
  }

  function Turns<T, S, V>(h: Caller<T, S, V>, next: Mutator<T, S, V>, m: T, replies: seq<Reply<V>>, w: World<T, S>)
    : (Reply<V>, World<T, S>)
    decreases h.most - |replies|
  {
    if |replies| >= h.most then (h.last, w)
    else
      match h.choose(m, replies, w.store)
      case Answer(r) => (r, w)
      case Again(m1, s1) =>
        var (r, w1) := next(Typed(m1), w.(store := s1));
        Turns(h, next, m, replies + [r], w1)
  }

  function Calling<T, S, V>(h: Caller<T, S, V>): Hook<T, S, V> {
    (next: Mutator<T, S, V>) =>
      (m: AnyMutation<T>, w: World<T, S>) =>
        if m.Foreign? then (Err(UnexpectedMutation), w) else Turns(h, next, m.m, [], w)
  }

  function Callings<T, S, V>(hs: seq<Caller<T, S, V>>): (out: seq<Hook<T, S, V>>)
    ensures |out| == |hs|
  {
    if hs == [] then [] else [Calling(hs[0])] + Callings(hs[1..])
  }

  function Least<T, S, V>(hs: seq<Caller<T, S, V>>): nat {
    if hs == [] then 1 else hs[0].least * Least(hs[1..])
  }

  function Most<T, S, V>(hs: seq<Caller<T, S, V>>): nat {
    if hs == [] then 1 else hs[0].most * Most(hs[1..])
  }

  /**
   * MAIN: the numbers of calls that the hooks make multiply: the operation is executed at least the
   * product of the least and at most the product of the most. So it is executed once when all call
   * next once, and never as soon as one does not call it.
   */
  lemma {:induction false} ExecutionsMultiply<T(!new), S(!new), V(!new)>(
    hs: seq<Caller<T, S, V>>, exec: Exec<T, S, V>, m: T, w: World<T, S>)
    requires forall k :: 0 <= k < |hs| ==> CallsAtLeast(hs[k])
    ensures var out := Onion(Callings(hs), Base(exec))(Typed(m), w);
            w.log <= out.1.log && Least(hs) <= |out.1.log| - |w.log| <= Most(hs)
    decreases |hs|, 0
  {
    if hs != [] {
      assert Callings(hs)[1..] == Callings(hs[1..]);
      TurnsAdd(hs, exec, m, [], w);
    }
  }

  /** The calls still to be made add up. */
  lemma {:induction false} TurnsAdd<T(!new), S(!new), V(!new)>(
    hs: seq<Caller<T, S, V>>, exec: Exec<T, S, V>, m: T, replies: seq<Reply<V>>, w: World<T, S>)
    requires hs != [] && |replies| <= hs[0].most
    requires forall k :: 0 <= k < |hs| ==> CallsAtLeast(hs[k])
    ensures var out := Turns(hs[0], Onion(Callings(hs[1..]), Base(exec)), m, replies, w);
            && w.log <= out.1.log
            && (if |replies| < hs[0].least then (hs[0].least - |replies|) * Least(hs[1..]) else 0) <= |out.1.log| - |w.log|
            && |out.1.log| - |w.log| <= (hs[0].most - |replies|) * Most(hs[1..])
    decreases |hs| - 1, hs[0].most - |replies| + 1
  {
    hide Onion, Callings, Base, RunExec, Least, Most;
    var h, next := hs[0], Onion(Callings(hs[1..]), Base(exec));
    if |replies| < h.most && h.choose(m, replies, w.store).Again? {
      var Again(m1, s1) := h.choose(m, replies, w.store);
      var (r, w1) := next(Typed(m1), w.(store := s1));
      ExecutionsMultiply(hs[1..], exec, m1, w.(store := s1));
      TurnsAdd(hs, exec, m, replies + [r], w1);
      var out := Turns(h, next, m, replies + [r], w1).1;
      OneMoreCall(|w.log|, |w1.log|, |out.log|, |replies|, h.least, h.most, Least(hs[1..]), Most(hs[1..]));
    } else {
      NoneOfMany(h.most - |replies|, Most(hs[1..]));
      assert CallsAtLeast(h);
    }
  }

  /** The executions of one call, then those of the calls after it. */
  lemma OneMoreCall(before: int, mid: int, end: int, made: int, least: int, most: int, lo: int, hi: int)
    requires lo <= mid - before <= hi
    requires (if made + 1 < least then (least - made - 1) * lo else 0) <= end - mid <= (most - made - 1) * hi
    requires 0 <= lo
    ensures (if made < least then (least - made) * lo else 0) <= end - before <= (most - made) * hi
  {
    assert (least - made) * lo == (least - made - 1) * lo + lo;
    assert (most - made) * hi == (most - made - 1) * hi + hi;
  }

  lemma NoneOfMany(n: nat, x: nat)
    ensures 0 <= n * x
  {
  }
}
