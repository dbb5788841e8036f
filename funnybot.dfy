/** A sequential model of Funnybot, the "poor man's mock helper".

    A hand-written mock forwards every intercepted call to a recorder, which
    appends the call's argument to an append-only log and pulls the next
    pre-programmed result from a one-way result source. Pulling past the end
    of a finite source is fatal; here that is the outcome `Exhausted`, after
    which the recorder is in a terminal failed state.

    The locks of the original only give interior mutability and are not
    modelled: the recorder is a plain object whose methods modify it. */
module Funnybot {

  datatype Option<T> = None | Some(value: T)

  /** Where the pre-programmed results come from. Each variant is read as a
      one-way cursor: `Pull(s, n)` is what the n-th pull (0-based) yields. */
  datatype Source<R> =
    | FromIter(next: nat -> Option<R>)  // an arbitrary iterator: its n-th `next()`
    | Repeated(elt: R)                  // the same value, forever
    | Listed(values: seq<R>)            // a finite list, in order
    | Generated(gen: nat -> R)          // a generator: its n-th invocation

  /** The value the n-th pull from `s` produces, or `None` once a finite
      source has run dry. */
  function Pull<R>(s: Source<R>, n: nat): (r: Option<R>)
  {
    match s
    case FromIter(next) => next(n)
    case Repeated(elt) => Some(elt)
    case Listed(values) => if n < |values| then Some(values[n]) else None
    case Generated(gen) => Some(gen(n))
  }

  /** The first `n` pulls from `s` all produce a value. */
  predicate Supplies<R>(s: Source<R>, n: nat)
  {
    forall i :: 0 <= i < n ==> Pull(s, i).Some?
  }

  /** What a call hands back to the mock: the pre-programmed value, or the
      fatal "missing pre-programmed value for call". */
  datatype Outcome<R> = Returned(value: R) | Exhausted

  /** The abstract state of a recorder: the argument log, the result source,
      how many values have been pulled from it, and whether a pull has failed. */
  datatype BotState<A, R> = BotState(args: seq<A>, source: Source<R>, pulled: nat, exhausted: bool)

  /** The state every constructor produces: empty log, cursor at 0. */
  function Fresh<A, R>(s: Source<R>): (b: BotState<A, R>)
  {
    BotState([], s, 0, false)
  }

  /** The invariant every reachable state keeps: each successful pull was
      recorded with one argument; a failed state also logged the argument
      of the call whose pull found nothing. */
  ghost predicate Consistent<A, R>(b: BotState<A, R>)
  {
    Supplies(b.source, b.pulled) &&
    if b.exhausted then b.pulled < |b.args| && Pull(b.source, b.pulled).None?
    else b.pulled == |b.args|
  }

  /** One call: the argument is logged first, then the next value is pulled. */
  function Step<A, R>(b: BotState<A, R>, a: A): (next: (BotState<A, R>, Outcome<R>))
  {
    var logged := b.(args := b.args + [a]);
    if b.exhausted then (logged, Exhausted)
    else match Pull(b.source, b.pulled)
      case Some(v) => (logged.(pulled := b.pulled + 1), Returned(v))
      case None => (logged.(exhausted := true), Exhausted)
  }

  /** A sequence of calls, in order, with the outcome of each. */
  function Run<A, R>(b: BotState<A, R>, calls: seq<A>): (done: (BotState<A, R>, seq<Outcome<R>>))
    decreases |calls|
  {
    if calls == [] then (b, [])
    else
      var (before, outs) := Run(b, calls[..|calls| - 1]);
      var (after, o) := Step(before, calls[|calls| - 1]);
      (after, outs + [o])
  }

  /** Reference definition: what the j-th call (0-based) on a fresh
      recorder over `s` yields, in terms of the source alone. */
  function NthOutcome<R>(s: Source<R>, j: nat): (o: Outcome<R>)
  {
    if Supplies(s, j) then
      match Pull(s, j)
      case Some(v) => Returned(v)
      case None => Exhausted
    else Exhausted
  }

  lemma FreshIsConsistent<A, R>(s: Source<R>)
    ensures Consistent(Fresh<A, R>(s))
  {
  }

  lemma StepPreservesConsistent<A, R>(b: BotState<A, R>, a: A)
    requires Consistent(b)
    ensures Consistent(Step(b, a).0)
  {
  }

  /** The log is append-only: any run of calls appends exactly its arguments,
      in call order, leaving every earlier entry in place; the source itself
      is never replaced and every call produces one outcome. */
  lemma {:induction false} LogAppends<A, R>(b: BotState<A, R>, calls: seq<A>)
    ensures Run(b, calls).0.args == b.args + calls
    ensures Run(b, calls).0.source == b.source
    ensures |Run(b, calls).1| == |calls|
    decreases |calls|
  {
    if calls != [] {
      var init := calls[..|calls| - 1];
      LogAppends(b, init);
      assert init + [calls[|calls| - 1]] == calls;
      assert b.args + init + [calls[|calls| - 1]] == b.args + calls;
    }
  }

  /** Exhaustion is terminal: once a pull has failed, every later call still
      logs its argument but fails, and nothing more is pulled. */
  lemma {:induction false} ExhaustedIsTerminal<A, R>(b: BotState<A, R>, calls: seq<A>)
    requires b.exhausted
    ensures Run(b, calls).0.exhausted
    ensures Run(b, calls).0.pulled == b.pulled
    ensures forall j :: 0 <= j < |Run(b, calls).1| ==> Run(b, calls).1[j] == Exhausted
    decreases |calls|
  {
    if calls != [] {
      ExhaustedIsTerminal(b, calls[..|calls| - 1]);
    }
  }

  /** One call on a consistent recorder whose failure flag says exactly
      whether the source ran dry before the current call: the flag keeps
      that meaning with one more logged call, and the outcome is the
      reference outcome for the call's index. */
  lemma StepFollowsSource<A, R>(b: BotState<A, R>, a: A)
    requires Consistent(b)
    requires b.exhausted <==> !Supplies(b.source, |b.args|)
    ensures Step(b, a).0.exhausted <==> !Supplies(b.source, |b.args| + 1)
    ensures Step(b, a).1 == NthOutcome(b.source, |b.args|)
  {
  }

  /** The main theorem: after any calls on a fresh recorder over `s`, the log
      is exactly the arguments in call order, the j-th outcome is the j-th
      value of the source (or exhaustion once it has run dry), the recorder
      is failed exactly when the source could not supply every call, and a
      recorder that has not failed has pulled one value per logged argument. */
  lemma {:induction false} RunFromFresh<A, R>(s: Source<R>, calls: seq<A>)
    ensures Consistent(Run(Fresh<A, R>(s), calls).0)
    ensures Run(Fresh<A, R>(s), calls).0.args == calls
    ensures Run(Fresh<A, R>(s), calls).0.source == s
    ensures Run(Fresh<A, R>(s), calls).0.exhausted <==> !Supplies(s, |calls|)
    ensures !Run(Fresh<A, R>(s), calls).0.exhausted ==> Run(Fresh<A, R>(s), calls).0.pulled == |calls|
    ensures |Run(Fresh<A, R>(s), calls).1| == |calls|
    ensures forall j :: 0 <= j < |calls| ==> Run(Fresh<A, R>(s), calls).1[j] == NthOutcome(s, j)
    decreases |calls|
  {
    LogAppends(Fresh<A, R>(s), calls);
    if calls != [] {
      var n := |calls|;
      var init := calls[..n - 1];
      RunFromFresh(s, init);
      var (before, outs) := Run(Fresh<A, R>(s), init);
      var (after, o) := Step(before, calls[n - 1]);
      assert Run(Fresh<A, R>(s), calls) == (after, outs + [o]);
      StepPreservesConsistent(before, calls[n - 1]);
      StepFollowsSource(before, calls[n - 1]);
      forall j | 0 <= j < n ensures (outs + [o])[j] == NthOutcome(s, j) {
        if j < n - 1 { assert (outs + [o])[j] == outs[j]; }
      }
    }
  }

  /** `repeat(v)`: every call, however many, returns `v` and none fails. */
  lemma RepeatAlwaysReturns<A, R>(v: R, calls: seq<A>)
    ensures !Run(Fresh<A, R>(Repeated(v)), calls).0.exhausted
    ensures Run(Fresh<A, R>(Repeated(v)), calls).0.pulled == |calls|
    ensures |Run(Fresh<A, R>(Repeated(v)), calls).1| == |calls|
    ensures forall j :: 0 <= j < |calls| ==> Run(Fresh<A, R>(Repeated(v)), calls).1[j] == Returned(v)
  {
    RunFromFresh<A, R>(Repeated(v), calls);
    assert Supplies(Repeated(v), |calls|);
    forall j | 0 <= j < |calls| ensures NthOutcome(Repeated(v), j) == Returned(v) {
      assert Supplies(Repeated(v), j);
    }
  }

  /** `repeat_with(f)`: the n-th call returns the n-th generated value, and the
      source never runs dry. */
  lemma GeneratedReturnsInOrder<A, R>(f: nat -> R, calls: seq<A>)
    ensures !Run(Fresh<A, R>(Generated(f)), calls).0.exhausted
    ensures Run(Fresh<A, R>(Generated(f)), calls).0.pulled == |calls|
    ensures |Run(Fresh<A, R>(Generated(f)), calls).1| == |calls|
    ensures forall j :: 0 <= j < |calls| ==> Run(Fresh<A, R>(Generated(f)), calls).1[j] == Returned(f(j))
  {
    RunFromFresh<A, R>(Generated(f), calls);
    assert Supplies(Generated(f), |calls|);
    forall j | 0 <= j < |calls| ensures NthOutcome(Generated(f), j) == Returned(f(j)) {
      assert Supplies(Generated(f), j);
    }
  }

  /** `from_list(vs)`: the i-th call returns `vs[i]` while the list lasts,
      every call after the last element fails, and the recorder has failed
      exactly when there were more calls than values. */
  lemma ListedReturnsInOrder<A, R>(vs: seq<R>, calls: seq<A>)
    ensures Run(Fresh<A, R>(Listed(vs)), calls).0.exhausted <==> |calls| > |vs|
    ensures |calls| <= |vs| ==> Run(Fresh<A, R>(Listed(vs)), calls).0.pulled == |calls|
    ensures |Run(Fresh<A, R>(Listed(vs)), calls).1| == |calls|
    ensures forall j :: 0 <= j < |calls| ==>
      Run(Fresh<A, R>(Listed(vs)), calls).1[j] == if j < |vs| then Returned(vs[j]) else Exhausted
  {
    RunFromFresh<A, R>(Listed(vs), calls);
    if |calls| > |vs| {
      assert Pull(Listed(vs), |vs|).None?;
    } else {
      assert Supplies(Listed(vs), |calls|);
    }
    forall j | 0 <= j < |calls|
      ensures NthOutcome(Listed(vs), j) == if j < |vs| then Returned(vs[j]) else Exhausted
    {
      if j < |vs| {
        assert Supplies(Listed(vs), j);
      }
    }
  }

  /** `from_single(v)` is `from_list([v])`: the first call returns `v`, the
      second fails. */
  lemma SingleReturnsOnce<A, R>(v: R, first: A, second: A)
    ensures Run(Fresh<A, R>(Listed([v])), [first]).1 == [Returned(v)]
    ensures Run(Fresh<A, R>(Listed([v])), [first, second]).1 == [Returned(v), Exhausted]
    ensures Run(Fresh<A, R>(Listed([v])), [first, second]).0.args == [first, second]
  {
  }

  /** The recorder a hand-written mock holds. */
  class FunnyBot<A, R> {
    var arguments: seq<A>
    var results: Source<R>
    var pulled: nat
    var exhausted: bool

    function State(): (b: BotState<A, R>)
      reads this
    {
      BotState(arguments, results, pulled, exhausted)
    }

    ghost predicate Valid()
      reads this
    {
      Consistent(State())
    }

    /** `new`: results come from an arbitrary iterator. */
    constructor New(next: nat -> Option<R>)
      ensures Valid() && State() == Fresh(FromIter(next))
    {
      arguments, results, pulled, exhausted := [], FromIter(next), 0, false;
    }

    /** `repeat`: the same value for every call. */
    constructor Repeat(elt: R)
      ensures Valid() && State() == Fresh(Repeated(elt))
    {
      arguments, results, pulled, exhausted := [], Repeated(elt), 0, false;
    }

    /** `from_single`: built as `from_list` over a one-element list. */
    constructor FromSingle(elt: R)
      ensures Valid() && State() == Fresh(Listed([elt]))
    {
      arguments, results, pulled, exhausted := [], Listed([elt]), 0, false;
    }

    /** `from_list`: the values of the list, in order, then exhaustion. */
    constructor FromList(values: seq<R>)
      ensures Valid() && State() == Fresh(Listed(values))
    {
      arguments, results, pulled, exhausted := [], Listed(values), 0, false;
    }

    /** `repeat_with`: the generator's n-th invocation for the n-th call. */
    constructor RepeatWith(gen: nat -> R)
      ensures Valid() && State() == Fresh(Generated(gen))
    {
      arguments, results, pulled, exhausted := [], Generated(gen), 0, false;
    }

    /** `call`: log the argument, then pull the next pre-programmed value. */
    method Call(a: A) returns (o: Outcome<R>)
      requires Valid()
      modifies this
      ensures Valid()
      ensures arguments == old(arguments) + [a]
      ensures results == old(results)
      ensures (State(), o) == Step(old(State()), a)
    {
      StepPreservesConsistent(State(), a);
      arguments := arguments + [a];
      if exhausted {
        o := Exhausted;
      } else {
        match Pull(results, pulled)
        case Some(v) =>
          pulled := pulled + 1;
          o := Returned(v);
        case None =>
          exhausted := true;
          o := Exhausted;
      }
    }

    /** `args`: a snapshot of the log; reads only. */
    method Args() returns (log: seq<A>)
      ensures log == arguments
    {
      log := arguments;
    }

    /** `into_args`: the log, once no further calls are expected. */
    method IntoArgs() returns (log: seq<A>)
      ensures log == arguments
    {
      log := arguments;
    }
  }

  /** A client of the recorder: a recorder programmed with one value answers
      the first call with it and fails the second, having logged both. */
  method SingleValueClient(x: string, y: string)
  {
    var bot := new FunnyBot<string, int>.FromSingle(42);
    var o := bot.Call(x);
    assert o == Returned(42);
    o := bot.Call(y);
    assert o == Exhausted;
    var log := bot.IntoArgs();
    assert log == [x, y];
  }
}
