/** `Store`: the runtime that owns the state, runs the reducer on every action
    sent to it and subscribes to the effects the reducer returns.

    An effect is known by its trace (`Effects.Effect`): the outputs it produces
    synchronously while being subscribed to, then whether it completed at once
    or is still running. The outputs of a running effect that arrive later, and
    its later completion, reach the store as calls from the environment
    (`Send` and `CompleteEffect`). The published values of the `state` subject
    are the ghost `history`. */
module Stores {
  import opened Base
  import Effects
  import opened Reducers
  import opened Dispatch

  /** The `effectCancellables` table after the effects of `processed` were
      subscribed to with the ids `base`, `base + 1`, …: the ones still running
      are added under their id, with the action they came from. */
  function Register<A>(table: map<nat, A>, base: nat, processed: seq<A>, effects: seq<ActionEffect<A>>): map<nat, A>
    requires |processed| == |effects|
  {
    if processed == [] then table
    else
      var n := |processed| - 1;
      var earlier := Register(table, base, processed[..n], effects[..n]);
      if effects[n].term.Pending? then earlier[base + n := processed[n]] else earlier
  }

  /** Exactly the effects still running are added, each under its own id and
      with the action it came from; the entries already there stay, and ids
      at or past `base + |processed|` are not used. */
  lemma {:induction false} RegisterContents<A>(table: map<nat, A>, base: nat, processed: seq<A>, effects: seq<ActionEffect<A>>)
    requires |processed| == |effects|
    ensures var r := Register(table, base, processed, effects);
      && (forall i :: 0 <= i < |processed| && effects[i].term.Pending? ==> base + i in r && r[base + i] == processed[i])
      && (forall id :: id in r ==> id in table || (base <= id < base + |processed| && effects[id - base].term.Pending?))
      && (forall id :: id in table && !(base <= id < base + |processed|) ==> id in r && r[id] == table[id])
    decreases |processed|
  {
    if processed != [] {
      var n := |processed| - 1;
      RegisterContents(table, base, processed[..n], effects[..n]);
    }
  }

  lemma RegisterAppend<A>(table: map<nat, A>, base: nat, processed: seq<A>, effects: seq<ActionEffect<A>>, a: A, e: ActionEffect<A>)
    requires |processed| == |effects|
    ensures Register(table, base, processed + [a], effects + [e]) ==
      var earlier := Register(table, base, processed, effects);
      if e.term.Pending? then earlier[base + |processed| := a] else earlier
  {
    assert (processed + [a])[..|processed|] == processed;
    assert (effects + [e])[..|effects|] == effects;
  }

  class Store<S, A> {
    var bufferedActions: seq<A>
    var effectCancellables: map<nat, A>
    var isSending: bool
    /** The reducer with its environment bound (`init`). */
    const reduce: (S, A) -> Outcome<Step<S, A>>
    /** `state.value`. */
    var value: S
    /** Stands for the fresh `UUID()` drawn for each subscribed effect. */
    var nextId: nat
    /** The reducer trapped: the process has aborted. */
    var aborted: bool
    /** Every value the `state` subject has published, the current one last. */
    ghost var history: seq<S>

    ghost predicate Valid()
      reads this
    {
      && !aborted
      && (!isSending ==> bufferedActions == [])
      && (forall id :: id in effectCancellables ==> id < nextId)
      && |history| > 0 && history[|history| - 1] == value
    }

    /** Between two calls from the outside: no `send` is running. */
    ghost predicate Idle()
      reads this
    {
      Valid() && !isSending
    }

    /** `init(initialState:reducer:environment:mainThreadChecksEnabled:)`,
        with the reducer already bound to its environment. */
    constructor (initialState: S, reduce: (S, A) -> Outcome<Step<S, A>>)
      ensures Idle() && this.reduce == reduce
      ensures value == initialState && history == [initialState]
      ensures effectCancellables == map[] && nextId == 0
    {
      bufferedActions := [];
      effectCancellables := map[];
      isSending := false;
      this.reduce := reduce;
      value := initialState;
      nextId := 0;
      aborted := false;
      history := [initialState];
    }

    /** `send(_:originatingFrom:)`. A call made while a `send` is running only
        queues the action. The outermost call drains the queue as `Drain` does,
        registers the effects still running, and publishes the final state
        once; if the reducer traps, the process aborts. */
    method Send(action: A)
      requires Valid()
      requires !isSending ==> DrainTerminates(reduce, value, [action])
      modifies this
      decreases if isSending then 0 else 4
      ensures !aborted ==> Valid()
      ensures old(isSending) ==>
        && !aborted && isSending
        && bufferedActions == old(bufferedActions) + [action]
        && value == old(value) && history == old(history)
        && effectCancellables == old(effectCancellables) && nextId == old(nextId)
      ensures !old(isSending) ==>
        var d := Dispatched(reduce, old(value), [action]);
        && (aborted <==> d.Aborted?)
        && (d.Done? ==>
          && !isSending && value == d.state && history == old(history) + [d.state]
          && nextId == old(nextId) + |d.processed|
          && effectCancellables == Register(old(effectCancellables), old(nextId), d.processed, d.effects))
    {
      bufferedActions := bufferedActions + [action];
      if isSending {
        return;
      }
      isSending := true;
      ghost var fuel: nat :| !Drain(reduce, value, [action], fuel).OutOfFuel?;
      DispatchedIsDrain(reduce, value, [action], fuel);
      var currentState := DrainBuffer(value, fuel);
      if aborted {
        return;
      }
      isSending := false;
      value := currentState;
      history := history + [currentState];
    }

    /** The `while !bufferedActions.isEmpty` loop of the outermost `send`,
        starting from `currentState`. */
    method DrainBuffer(currentState: S, ghost fuel: nat) returns (finalState: S)
      requires Valid() && isSending
      requires !Drain(reduce, currentState, bufferedActions, fuel).OutOfFuel?
      modifies this
      decreases 3
      ensures var d := Drain(reduce, currentState, old(bufferedActions), fuel);
        && (aborted <==> d.Aborted?)
        && (d.Done? ==>
          && Valid() && isSending && bufferedActions == []
          && finalState == d.state
          && nextId == old(nextId) + |d.processed|
          && effectCancellables == Register(old(effectCancellables), old(nextId), d.processed, d.effects)
          && value == old(value) && history == old(history))
    {
      finalState := currentState;
      ghost var goal := Drain(reduce, currentState, bufferedActions, fuel);
      ghost var left := fuel;
      ghost var processed: seq<A> := [];
      ghost var effects: seq<ActionEffect<A>> := [];
      assert goal == Prepend(processed, effects, goal);
      while bufferedActions != []
        invariant Valid() && isSending
        invariant !Drain(reduce, finalState, bufferedActions, left).OutOfFuel?
        invariant goal == Prepend(processed, effects, Drain(reduce, finalState, bufferedActions, left))
        invariant |processed| == |effects| && nextId == old(nextId) + |processed|
        invariant effectCancellables == Register(old(effectCancellables), old(nextId), processed, effects)
        invariant value == old(value) && history == old(history)
        decreases left
      {
        ghost var queue := bufferedActions;
        ghost var outcome := reduce(finalState, queue[0]);
        DrainStep(reduce, finalState, queue, left);
        finalState := ProcessNext(finalState);
        if aborted {
          return;
        }
        PrependPrepend(processed, effects, [queue[0]], [outcome.value.effect], Drain(reduce, finalState, bufferedActions, left - 1));
        RegisterAppend(old(effectCancellables), old(nextId), processed, effects, queue[0], outcome.value.effect);
        processed := processed + [queue[0]];
        effects := effects + [outcome.value.effect];
        left := left - 1;
      }
      assert processed + [] == processed && effects + [] == effects;
    }

    /** One turn of the `send` loop: the first buffered action is reduced
        against `currentState`, the effect is subscribed to, and it is kept in
        the table under a fresh id unless it completed during the
        subscription. */
    method ProcessNext(currentState: S) returns (nextState: S)
      requires Valid() && isSending && bufferedActions != []
      modifies this
      decreases 2
      ensures var outcome := reduce(currentState, old(bufferedActions[0]));
        && (aborted <==> outcome.Trapped?)
        && (outcome.Returned? ==>
          var step := outcome.value;
          && Valid() && isSending && nextState == step.state
          && bufferedActions == old(bufferedActions[1..]) + step.effect.outputs
          && nextId == old(nextId) + 1
          && effectCancellables ==
               (if step.effect.term.Pending? then old(effectCancellables)[old(nextId) := old(bufferedActions[0])] else old(effectCancellables))
          && value == old(value) && history == old(history))
    {
      var action := bufferedActions[0];
      bufferedActions := bufferedActions[1..];
      var outcome := reduce(currentState, action);
      if outcome.Trapped? {
        aborted := true;
        return currentState;
      }
      var effect := outcome.value.effect;
      nextState := outcome.value.state;
      var id := nextId;
      nextId := nextId + 1;
      // Subscribing: the synchronous outputs are sent back to this store.
      SendAll(effect.outputs);
      if effect.term.Pending? {
        effectCancellables := effectCancellables[id := action];
      }
    }

    /** Subscribing to an effect while a `send` runs: each synchronous output
        is sent back to this store, which only queues it. */
    method SendAll(outputs: seq<A>)
      requires Valid() && isSending
      modifies this
      decreases 1
      ensures Valid() && isSending
      ensures bufferedActions == old(bufferedActions) + outputs
      ensures value == old(value) && history == old(history)
      ensures effectCancellables == old(effectCancellables) && nextId == old(nextId)
    {
      var i := 0;
      while i < |outputs|
        invariant 0 <= i <= |outputs|
        invariant Valid() && isSending
        invariant bufferedActions == old(bufferedActions) + outputs[..i]
        invariant value == old(value) && history == old(history)
        invariant effectCancellables == old(effectCancellables) && nextId == old(nextId)
      {
        Send(outputs[i]);
        assert outputs[..i + 1] == outputs[..i] + [outputs[i]];
        i := i + 1;
      }
      assert outputs[..i] == outputs;
    }

    /** The `receiveCompletion` sink of a running effect: its entry leaves the
        table, and nothing else changes. */
    method CompleteEffect(id: nat)
      requires Idle()
      modifies this
      ensures Idle()
      ensures effectCancellables == old(effectCancellables) - {id}
      ensures value == old(value) && history == old(history) && nextId == old(nextId)
    {
      effectCancellables := effectCancellables - {id};
    }

    /** `scope(state:action:)`: a child store over `toLocal` of this store's
        state, forwarding every action through `fromLocal`. */
    method Scope<L, LA>(toLocal: S -> L, fromLocal: LA -> A) returns (child: ScopedStore<S, A, L, LA>)
      requires Idle()
      ensures fresh(child) && child.Idle() && child.parent == this
      ensures child.value == toLocal(value) && child.history == [child.value]
      ensures child.fromLocal == fromLocal
      ensures forall last: L, s: S :: child.project(last, s) == toLocal(s)
    {
      child := new ScopedStore(this, toLocal(value), (last: L, s: S) => toLocal(s), fromLocal);
    }

    /** `scope(state:)`: the child keeps this store's actions. */
    method ScopeState<L>(toLocal: S -> L) returns (child: ScopedStore<S, A, L, A>)
      requires Idle()
      ensures fresh(child) && child.Idle() && child.parent == this
      ensures child.value == toLocal(value) && child.history == [child.value]
      ensures forall a: A :: child.fromLocal(a) == a
      ensures forall last: L, s: S :: child.project(last, s) == toLocal(s)
    {
      child := Scope(toLocal, (a: A) => a);
    }

    /** `stateless`: a child that only forwards actions. */
    method Stateless() returns (child: ScopedStore<S, A, (), A>)
      requires Idle()
      ensures fresh(child) && child.Idle() && child.parent == this
      ensures child.value == () && child.history == [()]
      ensures forall a: A :: child.fromLocal(a) == a
      ensures forall last: (), s: S :: child.project(last, s) == ()
    {
      child := ScopeState((s: S) => ());
    }
  }

  /** `Store.init(initialState:reducer:environment:)`. */
  method NewStore<S, A, Env>(initialState: S, reducer: Reducer<S, A, Env>, environment: Env) returns (store: Store<S, A>)
    ensures fresh(store) && store.Idle()
    ensures store.value == initialState && store.history == [initialState]
    ensures store.effectCancellables == map[] && store.nextId == 0
    ensures forall s: S, a: A :: store.reduce(s, a) == Run(reducer, s, a, environment)
  {
    store := new Store(initialState, (s: S, a: A) => Run(reducer, s, a, environment));
  }

  /** The store `scope` returns. In the source it is a `Store` whose reducer
      forwards each local action to the parent and reads the parent's new
      state back, and which follows the parent's later publications; the
      local state is computed from the previous local state and the parent's
      state (`project`), which covers the stateful closure `ifLet` passes. */
  class ScopedStore<S, A, L, LA> {
    const parent: Store<S, A>
    const project: (L, S) -> L
    const fromLocal: LA -> A
    /** The `isSending` flag the scope's closures share: set while the local
        reducer forwards an action to the parent. */
    var forwarding: bool
    var value: L
    ghost var history: seq<L>

    ghost predicate Valid()
      reads this, parent
    {
      parent.Idle() && |history| > 0 && history[|history| - 1] == value
    }

    ghost predicate Idle()
      reads this, parent
    {
      Valid() && !forwarding
    }

    constructor (parent: Store<S, A>, initial: L, project: (L, S) -> L, fromLocal: LA -> A)
      requires parent.Idle()
      ensures Idle() && this.parent == parent && this.project == project && this.fromLocal == fromLocal
      ensures value == initial && history == [initial]
    {
      this.parent := parent;
      this.project := project;
      this.fromLocal := fromLocal;
      forwarding := false;
      value := initial;
      history := [initial];
    }

    /** `send` on the child. Its reducer forwards the action to the parent,
        whose publication at the end of that `send` reaches the child's sink
        while `forwarding` is set and is dropped; it then reads the parent's
        state back and returns `.none`, which completes at once. */
    method Send(action: LA)
      requires Idle()
      requires DrainTerminates(parent.reduce, parent.value, [fromLocal(action)])
      modifies this, parent
      ensures var d := Dispatched(parent.reduce, old(parent.value), [fromLocal(action)]);
        && (parent.aborted <==> d.Aborted?)
        && (d.Done? ==>
          && Idle()
          && parent.value == d.state && parent.history == old(parent.history) + [d.state]
          && parent.nextId == old(parent.nextId) + |d.processed|
          && parent.effectCancellables == Register(old(parent.effectCancellables), old(parent.nextId), d.processed, d.effects)
          && value == project(old(value), d.state) && history == old(history) + [value])
    {
      forwarding := true;
      parent.Send(fromLocal(action));
      if parent.aborted {
        return;
      }
      ParentPublished(parent.value);
      var currentState := project(value, parent.value);
      forwarding := false;
      value := currentState;
      history := history + [currentState];
    }

    /** The sink on the parent's `state` after `dropFirst()`: a publication
        made while this store forwards is dropped; any other replaces the
        local state. */
    method ParentPublished(newValue: S)
      requires Valid()
      modifies this
      ensures Valid() && forwarding == old(forwarding)
      ensures old(forwarding) ==> value == old(value) && history == old(history)
      ensures !old(forwarding) ==> value == project(old(value), newValue) && history == old(history) + [value]
    {
      if forwarding {
        return;
      }
      value := project(value, newValue);
      history := history + [value];
    }
  }

  /** What the `ifLet` sink does with one publication. */
  datatype Branch<W, A> =
    | Unwrap(child: ScopedStore<Option<W>, A, W, A>)
    | Else
    | Skip

  /** The `ifLet(then:else:)` subscription: `removeDuplicates` on whether the
      state is present, then a fresh child store when it is and `else`
      when it is not. */
  class IfLetSubscription<W, A> {
    const store: Store<Option<W>, A>
    /** Presence of the last value let through, if any. */
    var lastPresent: Option<bool>

    constructor (store: Store<Option<W>, A>)
      ensures this.store == store && lastPresent == None
    {
      this.store := store;
      lastPresent := None;
    }

    /** The store published its current value. A value of the same presence
        as the last one let through is skipped; otherwise a present value
        unwraps into a child store whose state follows the parent's and keeps
        its last value once the parent's becomes `nil`, and an absent one
        calls `else`. */
    method StorePublished() returns (branch: Branch<W, A>)
      requires store.Idle()
      modifies this
      ensures lastPresent == Some(store.value.Some?)
      ensures branch.Skip? <==> old(lastPresent) == Some(store.value.Some?)
      ensures branch.Else? <==> old(lastPresent) != Some(false) && store.value.None?
      ensures branch.Unwrap? ==>
        && store.value.Some?
        && fresh(branch.child) && branch.child.Idle() && branch.child.parent == store
        && branch.child.value == store.value.value && branch.child.history == [branch.child.value]
        && (forall a: A :: branch.child.fromLocal(a) == a)
        && (forall last: W, s: Option<W> :: branch.child.project(last, s) == s.GetOr(last))
    {
      var present := store.value.Some?;
      if lastPresent == Some(present) {
        return Skip;
      }
      lastPresent := Some(present);
      match store.value
      case Some(w) =>
        var child := new ScopedStore(store, store.value.GetOr(w), (last: W, s: Option<W>) => s.GetOr(last), (a: A) => a);
        branch := Unwrap(child);
      case None =>
        branch := Else;
    }
  }

  /** `ifLet(then:else:)`: subscribing delivers the current value at once. */
  method IfLet<W, A>(store: Store<Option<W>, A>) returns (subscription: IfLetSubscription<W, A>, first: Branch<W, A>)
    requires store.Idle()
    ensures fresh(subscription) && subscription.store == store
    ensures subscription.lastPresent == Some(store.value.Some?)
    ensures store.value.None? ==> first.Else?
    ensures store.value.Some? ==>
      && first.Unwrap? && fresh(first.child) && first.child.Idle() && first.child.parent == store
      && first.child.value == store.value.value && first.child.history == [first.child.value]
      && (forall a: A :: first.child.fromLocal(a) == a)
      && (forall last: W, s: Option<W> :: first.child.project(last, s) == s.GetOr(last))
  {
    subscription := new IfLetSubscription(store);
    first := subscription.StorePublished();
  }
}

/** A client of the store: a counter whose reducer adds one and returns
    `.none`. */
module Counter {
  import opened Base
  import Effects
  import opened Reducers
  import opened Dispatch
  import opened Stores

  function Increment(): Reducer<int, (), ()>
  {
    (count: int, tap: (), env: ()) => Returned(Step(count + 1, Effects.None()))
  }

  /** Three taps: each `send` publishes once, the count goes up by one each
      time, and no effect is left running. */
  method ThreeTaps() returns (store: Store<int, ()>)
    ensures store.Idle()
    ensures store.value == 3 && store.history == [0, 1, 2, 3]
    ensures store.effectCancellables == map[] && store.nextId == 3
  {
    store := NewStore(0, Increment(), ());
    QuietSend(store.reduce, 0, ());
    store.Send(());
    QuietSend(store.reduce, 1, ());
    store.Send(());
    QuietSend(store.reduce, 2, ());
    store.Send(());
  }
}
