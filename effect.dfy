/** Effects as already-resolved traces.

    An effect is observed by what it does synchronously when it is subscribed
    to: the outputs it emits, in order, and how it ends: `Finished`,
    `Failed(e)`, or `Pending` when it has not completed by the time the
    subscription call returns (a timer, an I/O callback, a future whose promise
    is not fulfilled yet). What a pending effect does later is not part of the
    trace. */
module Effects {
  import Base

  datatype Termination<F> = Finished | Failed(error: F) | Pending

  datatype Effect<O, F> = Effect(outputs: seq<O>, term: Termination<F>)

  /** Stands for Swift's uninhabited `Never`, the failure type of every effect a
      reducer returns. Dafny has no empty type, so this is a one-value stand-in;
      the source can never build a failing `Effect<Action, Never>`. */
  type Never = ()

  /** `Effect.none`: `Empty(completeImmediately: true)`. */
  function None<O, F>(): (r: Effect<O, F>)
    ensures r.outputs == [] && r.term == Finished
  {
    Effect([], Finished)
  }

  /** `Effect(value:)`: `Just(value)`, which cannot fail. */
  function Just<O, F>(value: O): (r: Effect<O, F>)
    ensures r.outputs == [value] && r.term == Finished
  {
    Effect([value], Finished)
  }

  /** `Effect.future`: a `Future` behind `Deferred`, so the attempt runs only
      when subscribed. `promised` is the first result the attempt hands to its
      promise while being subscribed, or `None` when it has not called it yet
      (later calls of the promise are ignored by `Future`). */
  function Future<O, F>(promised: Base.Option<Base.Result<O, F>>): (r: Effect<O, F>)
    ensures |r.outputs| <= 1
    ensures r.term.Pending? <==> promised.None?
    ensures r.term.Failed? <==> (promised.Some? && promised.value.Failure?)
    ensures r.term.Failed? ==> r.outputs == [] && r.term.error == promised.value.error
    ensures |r.outputs| == 1 <==> (promised.Some? && promised.value.Success?)
    ensures |r.outputs| == 1 ==> r.outputs[0] == promised.value.value && r.term.Finished?
  {
    match promised
    case None => Effect([], Pending)
    case Some(Success(v)) => Effect([v], Finished)
    case Some(Failure(e)) => Effect([], Failed(e))
  }

  /** `Effect.result`: a future whose attempt fulfils its promise at once. */
  function ResultEffect<O, F>(attempt: Base.Result<O, F>): (r: Effect<O, F>)
    ensures !r.term.Pending?
    ensures r == Future(Base.Some(attempt))
  {
    Future(Base.Some(attempt))
  }

  /** `Effect.catching(work)`: `work` runs once, on subscription, and its
      result, `.failure` when it throws, is handed to the promise at once. */
  function Catching<O, F>(attempt: Base.Result<O, F>): (r: Effect<O, F>)
    ensures r == ResultEffect(attempt) && !r.term.Pending?
  {
    Future(Base.Some(attempt))
  }

  /** `Effect(error:)`: `Deferred { Future { $0(.failure(error)) } }`. */
  function Fail<O, F>(error: F): (r: Effect<O, F>)
    ensures r.outputs == [] && r.term == Failed(error)
  {
    Future(Base.Some(Base.Failure(error)))
  }

  /** `Publisher.append`, the step of `concatenate`: the suffix is subscribed
      only once the prefix finishes; a prefix that fails or is still pending
      is the whole result. */
  function Append<O, F>(prefix: Effect<O, F>, suffix: Effect<O, F>): Effect<O, F>
  {
    if prefix.term.Finished? then Effect(prefix.outputs + suffix.outputs, suffix.term)
    else prefix
  }

  /** `reduce(into: first)` over the remaining effects with `append`. */
  function AppendAll<O, F>(acc: Effect<O, F>, rest: seq<Effect<O, F>>): Effect<O, F>
    decreases |rest|
  {
    if rest == [] then acc else AppendAll(Append(acc, rest[0]), rest[1..])
  }

  /** `Effect.concatenate`: `.none` for no effects, otherwise the left fold of
      `append` starting from the first one. */
  function Concatenate<O, F>(effects: seq<Effect<O, F>>): Effect<O, F>
  {
    if effects == [] then None() else AppendAll(effects[0], effects[1..])
  }

  /** Reference definition of running effects one after the other: each effect
      starts only when the one before it has finished. */
  function Sequenced<O, F>(effects: seq<Effect<O, F>>): Effect<O, F>
  {
    if effects == [] then None() else Append(effects[0], Sequenced(effects[1..]))
  }

  /** All outputs of a list of effects, in list order. */
  function Flatten<O, F>(effects: seq<Effect<O, F>>): seq<O>
  {
    if effects == [] then [] else effects[0].outputs + Flatten(effects[1..])
  }

  /** `Effect.merge` over a sequence (and so the variadic `merge` that calls
      it): the body is `fatalError()`, whatever the arguments. */
  function Merge<O, F>(effects: seq<Effect<O, F>>): (r: Base.Outcome<Effect<O, F>>)
    ensures r.Trapped?
  {
    Base.Trapped
  }

  /** `Effect.fireAndForget(work)`: runs `work` on subscription, then an empty
      `compactMap` over `Just(nil)`: nothing is emitted and it finishes. */
  function FireAndForget<O, F>(): (r: Effect<O, F>)
    ensures r.outputs == [] && r.term.Finished?
  {
    Effect([], Finished)
  }

  /** `Effect.map`: transforms every output, keeps the termination. */
  function Map<O, T, F>(e: Effect<O, F>, f: O -> T): (r: Effect<T, F>)
    ensures |r.outputs| == |e.outputs| && r.term == e.term
    ensures forall i :: 0 <= i < |e.outputs| ==> r.outputs[i] == f(e.outputs[i])
  {
    Effect(seq(|e.outputs|, i requires 0 <= i < |e.outputs| => f(e.outputs[i])), e.term)
  }

  /** `catchToEffect()`: outputs become `.success`, and a failure becomes one
      last `.failure(e)` output after which the effect finishes. */
  function CatchToEffect<O, F, G>(e: Effect<O, F>): (r: Effect<Base.Result<O, F>, G>)
    ensures !r.term.Failed?
    ensures r.term.Pending? <==> e.term.Pending?
    ensures |r.outputs| == |e.outputs| + (if e.term.Failed? then 1 else 0)
    ensures forall i :: 0 <= i < |e.outputs| ==> r.outputs[i] == Base.Success(e.outputs[i])
    ensures e.term.Failed? ==> r.outputs[|e.outputs|] == Base.Failure(e.term.error)
  {
    var successes := seq(|e.outputs|, i requires 0 <= i < |e.outputs| => Base.Success(e.outputs[i]));
    match e.term
    case Finished => Effect(successes, Finished)
    case Pending => Effect(successes, Pending)
    case Failed(err) => Effect(successes + [Base.Failure(err)], Finished)
  }

  /** `catchToEffect(transform)`: as `catchToEffect()`, with `transform` applied
      to each success and to the final failure. */
  function CatchToEffectWith<O, F, G, T>(e: Effect<O, F>, transform: Base.Result<O, F> -> T): Effect<T, G>
  {
    var mapped := seq(|e.outputs|, i requires 0 <= i < |e.outputs| => transform(Base.Success(e.outputs[i])));
    match e.term
    case Finished => Effect(mapped, Finished)
    case Pending => Effect(mapped, Pending)
    case Failed(err) => Effect(mapped + [transform(Base.Failure(err))], Finished)
  }

  /** `Publisher.fireAndForget()`: every output is `flatMap`ped to `Empty` and a
      failure is caught into `Empty`; only "has it ended" survives. */
  function DropOutputs<O, F, T, G>(e: Effect<O, F>): (r: Effect<T, G>)
    ensures r.outputs == [] && !r.term.Failed?
    ensures r.term.Pending? <==> e.term.Pending?
  {
    Effect([], if e.term.Pending? then Pending else Finished)
  }

  // ---------------------------------------------------------------------------
  // Laws

  /** `.none` is a unit of `append` on both sides. */
  lemma AppendNone<O, F>(e: Effect<O, F>)
    ensures Append(None(), e) == e
    ensures Append(e, None()) == e
  {
    assert e.outputs + [] == e.outputs;
  }

  lemma AppendAssociative<O, F>(a: Effect<O, F>, b: Effect<O, F>, c: Effect<O, F>)
    ensures Append(Append(a, b), c) == Append(a, Append(b, c))
  {
    if a.term.Finished? && b.term.Finished? {
      assert (a.outputs + b.outputs) + c.outputs == a.outputs + (b.outputs + c.outputs);
    }
  }

  lemma {:induction false} AppendAllIsSequenced<O, F>(acc: Effect<O, F>, rest: seq<Effect<O, F>>)
    ensures AppendAll(acc, rest) == Append(acc, Sequenced(rest))
    decreases |rest|
  {
    if rest == [] {
      AppendNone(acc);
    } else {
      AppendAllIsSequenced(Append(acc, rest[0]), rest[1..]);
      AppendAssociative(acc, rest[0], Sequenced(rest[1..]));
    }
  }

  /** The left fold that `concatenate` performs runs its effects one after
      the other, in argument order. */
  lemma ConcatenateIsSequenced<O, F>(effects: seq<Effect<O, F>>)
    ensures Concatenate(effects) == Sequenced(effects)
  {
    if effects != [] {
      AppendAllIsSequenced(effects[0], effects[1..]);
    }
  }

  /** When every effect finishes, `concatenate` emits all their outputs in
      argument order and finishes. */
  lemma {:induction false} ConcatenateAllFinished<O, F>(effects: seq<Effect<O, F>>)
    requires forall i :: 0 <= i < |effects| ==> effects[i].term.Finished?
    ensures Concatenate(effects) == Effect(Flatten(effects), Finished)
  {
    ConcatenateIsSequenced(effects);
    SequencedAllFinished(effects);
  }

  lemma {:induction false} SequencedAllFinished<O, F>(effects: seq<Effect<O, F>>)
    requires forall i :: 0 <= i < |effects| ==> effects[i].term.Finished?
    ensures Sequenced(effects) == Effect(Flatten(effects), Finished)
  {
    if effects != [] {
      SequencedAllFinished(effects[1..]);
    }
  }

  /** The first effect that does not finish ends `concatenate`: the effects
      after it are never subscribed to, and its termination is the result's. */
  lemma {:induction false} ConcatenateStopsAt<O, F>(effects: seq<Effect<O, F>>, k: nat)
    requires k < |effects|
    requires forall i :: 0 <= i < k ==> effects[i].term.Finished?
    requires !effects[k].term.Finished?
    ensures Concatenate(effects) == Effect(Flatten(effects[..k + 1]), effects[k].term)
  {
    ConcatenateIsSequenced(effects);
    SequencedStopsAt(effects, k);
  }

  lemma {:induction false} SequencedStopsAt<O, F>(effects: seq<Effect<O, F>>, k: nat)
    requires k < |effects|
    requires forall i :: 0 <= i < k ==> effects[i].term.Finished?
    requires !effects[k].term.Finished?
    ensures Sequenced(effects) == Effect(Flatten(effects[..k + 1]), effects[k].term)
  {
    if k == 0 {
      assert effects[..1] == [effects[0]];
      assert Flatten(effects[..1]) == effects[0].outputs + Flatten(effects[..1][1..]);
      assert effects[..1][1..] == [];
    } else {
      SequencedStopsAt(effects[1..], k - 1);
      assert effects[..k + 1][1..] == effects[1..][..k];
    }
  }

  /** `map` with the identity changes nothing; two `map`s fuse into one. */
  lemma MapIdentity<O, F>(e: Effect<O, F>)
    ensures Map(e, (o: O) => o) == e
  {
  }

  lemma MapCompose<O, T, U, F>(e: Effect<O, F>, f: O -> T, g: T -> U)
    ensures Map(Map(e, f), g) == Map(e, (o: O) => g(f(o)))
  {
  }

  /** `map` commutes with `append`, hence with `concatenate`. */
  lemma MapAppend<O, T, F>(a: Effect<O, F>, b: Effect<O, F>, f: O -> T)
    ensures Map(Append(a, b), f) == Append(Map(a, f), Map(b, f))
  {
    if a.term.Finished? {
      assert Map(Append(a, b), f).outputs == Map(a, f).outputs + Map(b, f).outputs;
    }
  }

  lemma MapJust<O, T, F>(v: O, f: O -> T)
    ensures Map(Just<O, F>(v), f) == Just(f(v))
  {
  }

  /** `Effect(error:)` is the future whose promise receives the failure. */
  lemma FailIsFuture<O, F>(error: F)
    ensures Fail<O, F>(error) == Future(Base.Some(Base.Failure(error)))
    ensures Fail<O, F>(error) == ResultEffect(Base.Failure(error))
  {
  }

  /** The transforming `catchToEffect` is `catchToEffect()` followed by `map`. */
  lemma CatchToEffectWithIsMap<O, F, G, T>(e: Effect<O, F>, transform: Base.Result<O, F> -> T)
    ensures CatchToEffectWith<O, F, G, T>(e, transform) == Map(CatchToEffect<O, F, G>(e), transform)
  {
  }

  /** A failure is caught into its own final output. */
  lemma CatchFail<O, F, G>(error: F)
    ensures CatchToEffect<O, F, G>(Fail(error)) == Just(Base.Failure(error))
  {
  }

  /** `Publisher.fireAndForget()` ignores what the outputs are. */
  lemma DropOutputsMap<O, T, F, U, G>(e: Effect<O, F>, f: O -> T)
    ensures DropOutputs<T, F, U, G>(Map(e, f)) == DropOutputs<O, F, U, G>(e)
  {
  }
}
