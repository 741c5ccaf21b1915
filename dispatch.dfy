/** What one outermost `Store.send` computes, as a function: the queue of
    buffered actions is drained front to back; each action runs the store's
    reducer on the current state, and the synchronous outputs of the effect it
    returns join the back of the queue. `Store.Send` is proved against this. */
module Dispatch {
  import opened Base
  import Effects
  import opened Reducers

  /** How a drain ends: every queued action was processed (`Done`, with the
      final state, the actions in the order they ran and the effect each one
      returned), or the reducer trapped and aborted the process (`Aborted`),
      or the fuel bound was hit before the queue emptied (`OutOfFuel`). */
  datatype Drained<S, A> =
    | Done(state: S, processed: seq<A>, effects: seq<ActionEffect<A>>)
    | Aborted
    | OutOfFuel

  /** The `while !bufferedActions.isEmpty` loop, with `fuel` bounding the number
      of actions processed. */
  function Drain<S, A>(reduce: (S, A) -> Outcome<Step<S, A>>, s: S, queue: seq<A>, fuel: nat): (r: Drained<S, A>)
    ensures r.Done? ==> |r.processed| == |r.effects| && |r.processed| >= |queue|
    decreases fuel
  {
    if queue == [] then Done(s, [], [])
    else if fuel == 0 then OutOfFuel
    else
      match reduce(s, queue[0])
      case Trapped => Aborted
      case Returned(step) =>
        Prepend([queue[0]], [step.effect], Drain(reduce, step.state, queue[1..] + step.effect.outputs, fuel - 1))
  }

  /** Actions and effects processed before a drain that went on as `d`. */
  function Prepend<S, A>(processed: seq<A>, effects: seq<ActionEffect<A>>, d: Drained<S, A>): Drained<S, A>
  {
    match d
    case Done(s, p, es) => Done(s, processed + p, effects + es)
    case _ => d
  }

  /** The loop stops for some fuel: the reducer does not keep producing
      synchronous actions forever. */
  ghost predicate DrainTerminates<S, A>(reduce: (S, A) -> Outcome<Step<S, A>>, s: S, queue: seq<A>)
  {
    exists fuel: nat :: !Drain(reduce, s, queue, fuel).OutOfFuel?
  }

  /** The outcome of the drain, whatever fuel suffices. */
  ghost function Dispatched<S, A>(reduce: (S, A) -> Outcome<Step<S, A>>, s: S, queue: seq<A>): (r: Drained<S, A>)
    requires DrainTerminates(reduce, s, queue)
    ensures !r.OutOfFuel?
  {
    var fuel: nat :| !Drain(reduce, s, queue, fuel).OutOfFuel?;
    Drain(reduce, s, queue, fuel)
  }

  /** The state after running `actions` one after the other, or `Trapped`. */
  function Replay<S, A>(reduce: (S, A) -> Outcome<Step<S, A>>, s: S, actions: seq<A>): Outcome<S>
  {
    if actions == [] then Returned(s)
    else
      match reduce(s, actions[0])
      case Trapped => Trapped
      case Returned(step) => Replay(reduce, step.state, actions[1..])
  }

  /** One turn of the loop: the head of the queue is reduced first. */
  lemma DrainStep<S, A>(reduce: (S, A) -> Outcome<Step<S, A>>, s: S, queue: seq<A>, fuel: nat)
    requires queue != [] && !Drain(reduce, s, queue, fuel).OutOfFuel?
    ensures fuel > 0
    ensures reduce(s, queue[0]).Trapped? ==> Drain(reduce, s, queue, fuel) == Aborted
    ensures reduce(s, queue[0]).Returned? ==>
      var step := reduce(s, queue[0]).value;
      && !Drain(reduce, step.state, queue[1..] + step.effect.outputs, fuel - 1).OutOfFuel?
      && Drain(reduce, s, queue, fuel) ==
           Prepend([queue[0]], [step.effect], Drain(reduce, step.state, queue[1..] + step.effect.outputs, fuel - 1))
  {
  }

  lemma PrependPrepend<S, A>(p1: seq<A>, e1: seq<ActionEffect<A>>, p2: seq<A>, e2: seq<ActionEffect<A>>, d: Drained<S, A>)
    ensures Prepend(p1, e1, Prepend(p2, e2, d)) == Prepend(p1 + p2, e1 + e2, d)
  {
    match d
    case Done(s, p, es) =>
      assert p1 + (p2 + p) == (p1 + p2) + p;
      assert e1 + (e2 + es) == (e1 + e2) + es;
    case _ =>
  }

  /** More fuel than enough changes nothing: the outcome of the loop does not
      depend on the bound. */
  lemma {:induction false} DrainFuelIrrelevant<S, A>(reduce: (S, A) -> Outcome<Step<S, A>>, s: S, queue: seq<A>, f1: nat, f2: nat)
    requires !Drain(reduce, s, queue, f1).OutOfFuel? && !Drain(reduce, s, queue, f2).OutOfFuel?
    ensures Drain(reduce, s, queue, f1) == Drain(reduce, s, queue, f2)
    decreases f1
  {
    if queue != [] {
      match reduce(s, queue[0])
      case Trapped =>
      case Returned(step) =>
        DrainFuelIrrelevant(reduce, step.state, queue[1..] + step.effect.outputs, f1 - 1, f2 - 1);
    }
  }

  lemma DispatchedIsDrain<S, A>(reduce: (S, A) -> Outcome<Step<S, A>>, s: S, queue: seq<A>, fuel: nat)
    requires !Drain(reduce, s, queue, fuel).OutOfFuel?
    ensures Dispatched(reduce, s, queue) == Drain(reduce, s, queue, fuel)
  {
    var f: nat :| !Drain(reduce, s, queue, f).OutOfFuel? && Dispatched(reduce, s, queue) == Drain(reduce, s, queue, f);
    DrainFuelIrrelevant(reduce, s, queue, f, fuel);
  }

  /** Every action is processed exactly once and in FIFO order: first the
      queued actions, then the synchronous outputs of each effect, in the
      order the effects were returned; one effect per processed action. */
  lemma {:induction false} DrainOrder<S, A>(reduce: (S, A) -> Outcome<Step<S, A>>, s: S, queue: seq<A>, fuel: nat)
    requires Drain(reduce, s, queue, fuel).Done?
    ensures var d := Drain(reduce, s, queue, fuel);
      d.processed == queue + Effects.Flatten(d.effects) && |d.processed| == |d.effects|
    decreases fuel
  {
    if queue != [] {
      var step := reduce(s, queue[0]).value;
      var rest := queue[1..] + step.effect.outputs;
      DrainOrder(reduce, step.state, rest, fuel - 1);
      var d' := Drain(reduce, step.state, rest, fuel - 1);
      var es := [step.effect] + d'.effects;
      assert es[1..] == d'.effects;
      assert Effects.Flatten(es) == step.effect.outputs + Effects.Flatten(d'.effects);
      calc {
        queue + Effects.Flatten(es);
        [queue[0]] + queue[1..] + (step.effect.outputs + Effects.Flatten(d'.effects));
        [queue[0]] + (rest + Effects.Flatten(d'.effects));
        [queue[0]] + d'.processed;
      }
    }
  }

  /** The final state is the reducer run over the processed actions in order,
      and no action of the drain trapped. */
  lemma {:induction false} DrainReplays<S, A>(reduce: (S, A) -> Outcome<Step<S, A>>, s: S, queue: seq<A>, fuel: nat)
    requires Drain(reduce, s, queue, fuel).Done?
    ensures var d := Drain(reduce, s, queue, fuel); Replay(reduce, s, d.processed) == Returned(d.state)
    decreases fuel
  {
    if queue != [] {
      var step := reduce(s, queue[0]).value;
      var rest := queue[1..] + step.effect.outputs;
      DrainReplays(reduce, step.state, rest, fuel - 1);
      var p := [queue[0]] + Drain(reduce, step.state, rest, fuel - 1).processed;
      assert p[0] == queue[0] && p[1..] == Drain(reduce, step.state, rest, fuel - 1).processed;
    }
  }

  /** The `i`-th recorded effect is the one the reducer returned for the `i`-th
      processed action, run on the state the actions before it reached. */
  lemma {:induction false} DrainEffectAt<S, A>(reduce: (S, A) -> Outcome<Step<S, A>>, s: S, queue: seq<A>, fuel: nat, i: nat)
    requires Drain(reduce, s, queue, fuel).Done? && i < |Drain(reduce, s, queue, fuel).processed|
    ensures var d := Drain(reduce, s, queue, fuel);
      && Replay(reduce, s, d.processed[..i]).Returned?
      && reduce(Replay(reduce, s, d.processed[..i]).value, d.processed[i]).Returned?
      && reduce(Replay(reduce, s, d.processed[..i]).value, d.processed[i]).value.effect == d.effects[i]
    decreases fuel
  {
    var d := Drain(reduce, s, queue, fuel);
    var step := reduce(s, queue[0]).value;
    var rest := queue[1..] + step.effect.outputs;
    var d' := Drain(reduce, step.state, rest, fuel - 1);
    assert d.processed == [queue[0]] + d'.processed && d.effects == [step.effect] + d'.effects;
    if i == 0 {
      assert d.processed[..0] == [];
    } else {
      DrainEffectAt(reduce, step.state, rest, fuel - 1, i - 1);
      var prefix := d.processed[..i];
      assert prefix[0] == queue[0] && prefix[1..] == d'.processed[..i - 1];
    }
  }

  /** One effect per processed action, in the order the actions ran: the
      `i`-th recorded effect is what the reducer returned for the `i`-th
      action, from the state the actions before it reached. */
  lemma DrainEffects<S, A>(reduce: (S, A) -> Outcome<Step<S, A>>, s: S, queue: seq<A>, fuel: nat)
    requires Drain(reduce, s, queue, fuel).Done?
    ensures var d := Drain(reduce, s, queue, fuel);
      forall i :: 0 <= i < |d.processed| ==>
        && Replay(reduce, s, d.processed[..i]).Returned?
        && reduce(Replay(reduce, s, d.processed[..i]).value, d.processed[i]).Returned?
        && reduce(Replay(reduce, s, d.processed[..i]).value, d.processed[i]).value.effect == d.effects[i]
  {
    var d := Drain(reduce, s, queue, fuel);
    forall i | 0 <= i < |d.processed|
      ensures Replay(reduce, s, d.processed[..i]).Returned?
      ensures reduce(Replay(reduce, s, d.processed[..i]).value, d.processed[i]).Returned?
      ensures reduce(Replay(reduce, s, d.processed[..i]).value, d.processed[i]).value.effect == d.effects[i]
    {
      DrainEffectAt(reduce, s, queue, fuel, i);
    }
  }

  /** The drain aborts exactly when replaying the queue traps, for a reducer
      whose effects have no synchronous outputs. */
  lemma {:induction false} QuietDrainIsReplay<S, A>(reduce: (S, A) -> Outcome<Step<S, A>>, s: S, queue: seq<A>)
    requires forall t: S, a: A :: reduce(t, a).Returned? ==> reduce(t, a).value.effect.outputs == []
    ensures var d := Drain(reduce, s, queue, |queue|);
      && !d.OutOfFuel?
      && (d.Aborted? <==> Replay(reduce, s, queue).Trapped?)
      && (d.Done? ==> d.processed == queue && Replay(reduce, s, queue) == Returned(d.state))
    decreases |queue|
  {
    if queue != [] {
      match reduce(s, queue[0])
      case Trapped =>
      case Returned(step) =>
        assert queue[1..] + step.effect.outputs == queue[1..];
        QuietDrainIsReplay(reduce, step.state, queue[1..]);
        assert [queue[0]] + queue[1..] == queue;
    }
  }

  /** A store whose reducer is a `combine` never gets past its first action:
      the merge of the effects traps. */
  lemma CombinedDrainAborts<S, A, Env>(rs: seq<Reducer<S, A, Env>>, env: Env, s: S, queue: seq<A>, fuel: nat)
    requires queue != [] && fuel > 0
    ensures Drain((t: S, a: A) => Run(Combine(rs), t, a, env), s, queue, fuel) == Aborted
  {
    CombineTraps(rs, s, queue[0], env);
  }

  /** What one outermost `send` processes: the action, then the synchronous
      outputs of every effect in the order they were returned, each exactly
      once, ending in the state the reducer reaches over them in that order;
      each recorded effect is the one its own action returned. */
  lemma SendOrder<S, A>(reduce: (S, A) -> Outcome<Step<S, A>>, s: S, action: A)
    requires DrainTerminates(reduce, s, [action])
    ensures var d := Dispatched(reduce, s, [action]);
      d.Done? ==>
        && d.processed == [action] + Effects.Flatten(d.effects)
        && |d.effects| == |d.processed|
        && Replay(reduce, s, d.processed) == Returned(d.state)
        && (forall i :: 0 <= i < |d.processed| ==>
              && Replay(reduce, s, d.processed[..i]).Returned?
              && reduce(Replay(reduce, s, d.processed[..i]).value, d.processed[i]).Returned?
              && reduce(Replay(reduce, s, d.processed[..i]).value, d.processed[i]).value.effect == d.effects[i])
  {
    var fuel: nat :| !Drain(reduce, s, [action], fuel).OutOfFuel?;
    DispatchedIsDrain(reduce, s, [action], fuel);
    if Drain(reduce, s, [action], fuel).Done? {
      DrainOrder(reduce, s, [action], fuel);
      DrainReplays(reduce, s, [action], fuel);
      DrainEffects(reduce, s, [action], fuel);
    }
  }

  /** With a reducer whose effects produce nothing synchronously, `send`
      always stops, runs the reducer once and keeps the one effect. */
  lemma QuietSend<S, A>(reduce: (S, A) -> Outcome<Step<S, A>>, s: S, action: A)
    requires forall t: S, a: A :: reduce(t, a).Returned? ==> reduce(t, a).value.effect.outputs == []
    ensures DrainTerminates(reduce, s, [action])
    ensures var d := Dispatched(reduce, s, [action]);
      && (d.Aborted? <==> reduce(s, action).Trapped?)
      && (d.Done? ==> d == Done(reduce(s, action).value.state, [action], [reduce(s, action).value.effect]))
  {
    QuietDrainIsReplay(reduce, s, [action]);
    DispatchedIsDrain(reduce, s, [action], 1);
    assert [action][1..] == [];
  }

  /** A store whose reducer is a `combine` aborts on the first action sent. */
  lemma CombinedSendAborts<S, A, Env>(rs: seq<Reducer<S, A, Env>>, env: Env, s: S, action: A)
    ensures var reduce := (t: S, a: A) => Run(Combine(rs), t, a, env);
      DrainTerminates(reduce, s, [action]) && Dispatched(reduce, s, [action]) == Aborted
  {
    var reduce := (t: S, a: A) => Run(Combine(rs), t, a, env);
    CombinedDrainAborts(rs, env, s, [action], 1);
    DispatchedIsDrain(reduce, s, [action], 1);
  }
}
