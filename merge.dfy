/** The fan-in subscription behind `Publishers.Merge`…`Merge8` and
    `Publishers.MergeMany`: one `Merged` object collects `count` upstream
    subscriptions, one per index, and forwards to a single downstream.

    Every region the source runs under its lock is one atomic step here. The
    downstream subscriber is outside the model: a call into it is a step that
    records what was forwarded (the ghost logs `delivered` and `completions`),
    during which the downstream may call `Request` back (the `reentrant`
    parameters), and which ends with the demand the downstream returns. */
module Merging {
  import opened Base
  import opened Subscribers

  /** An upstream subscription; only its identity matters to the merge. */
  datatype Upstream = Upstream(id: nat)

  /** What `receive(subscription:_:)` does to the subscription it is given:
      cancel a duplicate, or request demand from it. */
  datatype SubscriptionReply = CancelDuplicate | RequestFrom(demand: Demand)

  /** The live subscriptions of `snapshot`, in index order, except the one at
      `index`: the ones the failure path of `receive(completion:_:)` cancels. */
  function Others(snapshot: seq<Option<Upstream>>, index: nat): seq<Upstream>
  {
    if snapshot == [] then []
    else
      var last := |snapshot| - 1;
      Others(snapshot[..last], index) + (if last != index && snapshot[last].Some? then [snapshot[last].value] else [])
  }

  /** A subscription is cancelled exactly when it is live at another index. */
  lemma {:induction false} OthersMembers(snapshot: seq<Option<Upstream>>, index: nat, u: Upstream)
    ensures u in Others(snapshot, index) <==> exists i :: 0 <= i < |snapshot| && i != index && snapshot[i] == Some(u)
  {
    if snapshot != [] {
      var last := |snapshot| - 1;
      OthersMembers(snapshot[..last], index, u);
      if exists i :: 0 <= i < |snapshot| && i != index && snapshot[i] == Some(u) {
        var i :| 0 <= i < |snapshot| && i != index && snapshot[i] == Some(u);
        if i < last {
          assert snapshot[..last][i] == Some(u);
        }
      }
      if exists i :: 0 <= i < last && i != index && snapshot[..last][i] == Some(u) {
        var i :| 0 <= i < last && i != index && snapshot[..last][i] == Some(u);
        assert snapshot[i] == Some(u);
      }
    }
  }

  /** With distinct subscriptions, the failing source's own subscription is
      never among the cancelled ones. */
  lemma FailingSubscriptionKept(snapshot: seq<Option<Upstream>>, index: nat)
    requires index < |snapshot| && snapshot[index].Some?
    requires forall i, j :: 0 <= i < j < |snapshot| && snapshot[i].Some? ==> snapshot[i] != snapshot[j]
    ensures snapshot[index].value !in Others(snapshot, index)
  {
    OthersMembers(snapshot, index, snapshot[index].value);
  }

  /** The loop over the snapshot that cancels every other subscription. */
  method CancelOthers(snapshot: seq<Option<Upstream>>, index: nat) returns (cancelled: seq<Upstream>)
    ensures cancelled == Others(snapshot, index)
  {
    cancelled := [];
    var i := 0;
    while i < |snapshot|
      invariant 0 <= i <= |snapshot|
      invariant cancelled == Others(snapshot[..i], index)
    {
      assert snapshot[..i + 1][..i] == snapshot[..i];
      if i != index && snapshot[i].Some? {
        cancelled := cancelled + [snapshot[i].value];
      }
      i := i + 1;
    }
    assert snapshot[..|snapshot|] == snapshot;
  }

  class Merged<I, F> {
    const count: nat
    const subscriptions: array<Option<Upstream>>
    const buffers: array<Option<I>>
    var demand: Demand
    var terminated: bool
    var upstreamFinished: nat
    var finished: bool
    var recursive: bool
    var pending: Demand

    /** Values forwarded downstream, in order. */
    ghost var delivered: seq<I>
    /** Completions forwarded downstream, in order. */
    ghost var completions: seq<Completion<F>>

    /** Both arrays keep `count` slots; `finished` and `terminated` record that
        the finished and the failure completion were forwarded, each at most
        once; the merge can have finished only once every source finished. */
    ghost predicate Valid()
      reads this
    {
      && subscriptions.Length == count
      && buffers.Length == count
      && (finished ==> upstreamFinished >= count)
      && |completions| == (if finished then 1 else 0) + (if terminated then 1 else 0)
      && (finished <==> Completion<F>.Finished in completions)
      && (terminated <==> exists i :: 0 <= i < |completions| && completions[i].Failure?)
    }

    /** With `request` dropping finite demand, the demand is only ever `.none`
        or `.unlimited`, and nothing is ever pending. */
    ghost predicate StubbedDemand()
      reads this
    {
      (demand == NoDemand || demand == Unlimited) && pending == NoDemand
    }

    twostate predicate FlagsUnchanged()
      reads this
    {
      && terminated == old(terminated)
      && finished == old(finished)
      && upstreamFinished == old(upstreamFinished)
      && recursive == old(recursive)
      && delivered == old(delivered)
      && completions == old(completions)
    }

    /** `init(downstream:count:)`. */
    constructor (count: nat)
      ensures Valid() && StubbedDemand() && !recursive
      ensures this.count == count && fresh(subscriptions) && fresh(buffers)
      ensures forall i :: 0 <= i < count ==> subscriptions[i].None? && buffers[i].None?
      ensures demand == NoDemand && pending == NoDemand
      ensures !terminated && !finished && upstreamFinished == 0
      ensures delivered == [] && completions == []
    {
      this.count := count;
      subscriptions := new Option<Upstream>[count](_ => None);
      buffers := new Option<I>[count](_ => None);
      demand := NoDemand;
      terminated := false;
      upstreamFinished := 0;
      finished := false;
      recursive := false;
      pending := NoDemand;
      delivered := [];
      completions := [];
    }

    /** `receive(subscription:_:)`. */
    method ReceiveSubscription(subscription: Upstream, index: nat) returns (reply: SubscriptionReply)
      requires Valid() && !recursive && index < count
      modifies subscriptions
      ensures Valid()
      ensures old(subscriptions[index]).Some? ==>
        reply == CancelDuplicate && subscriptions[..] == old(subscriptions[..])
      ensures old(subscriptions[index]).None? ==>
        && subscriptions[..] == old(subscriptions[..])[index := Some(subscription)]
        && reply == RequestFrom(if demand == Unlimited then Unlimited else Max(1))
    {
      if subscriptions[index].Some? {
        return CancelDuplicate;
      }
      subscriptions[index] := Some(subscription);
      reply := RequestFrom(if demand == Unlimited then Unlimited else Max(1));
    }

    /** `request(_:)`: only `.unlimited`, asked for outside a downstream call,
        has an effect; finite demand outside a downstream call is dropped. */
    method Request(d: Demand)
      requires Valid()
      modifies this
      ensures Valid() && FlagsUnchanged()
      ensures
        if old(terminated || finished || d == NoDemand || demand == Unlimited) then
          demand == old(demand) && pending == old(pending)
        else if old(recursive) then
          demand == old(demand) && pending == Add(old(pending), d)
        else
          pending == old(pending) && demand == (if d == Unlimited then Unlimited else old(demand))
      ensures old(StubbedDemand()) && !old(recursive) ==> StubbedDemand()
    {
      if terminated || finished || d == NoDemand || demand == Unlimited {
        return;
      }
      if recursive {
        pending := Add(pending, d);
        return;
      }
      if d == Unlimited {
        demand := Unlimited;
      }
    }

    /** `cancel()`: not implemented in the source; it changes nothing. */
    method Cancel()
      requires Valid()
      ensures Valid()
    {
    }

    /** `lockedSendValueDownstream`: the downstream receives `input` while
        `recursive` is set, calls `request` with each of `reentrant`, and
        returns `downstreamDemand`. */
    method SendValueDownstream(input: I, downstreamDemand: Demand, reentrant: seq<Demand>) returns (newDemand: Demand)
      requires Valid() && !recursive
      modifies this
      ensures Valid() && !recursive
      ensures newDemand == downstreamDemand
      ensures delivered == old(delivered) + [input]
      ensures demand == old(demand)
      ensures pending ==
        if terminated || finished || demand == Unlimited then old(pending) else Add(old(pending), Sum(reentrant))
      ensures terminated == old(terminated) && finished == old(finished) && upstreamFinished == old(upstreamFinished)
      ensures completions == old(completions)
    {
      recursive := true;
      delivered := delivered + [input];
      var i := 0;
      while i < |reentrant|
        invariant 0 <= i <= |reentrant|
        invariant Valid() && recursive
        invariant demand == old(demand) && delivered == old(delivered) + [input]
        invariant terminated == old(terminated) && finished == old(finished)
        invariant upstreamFinished == old(upstreamFinished) && completions == old(completions)
        invariant pending ==
          if terminated || finished || demand == Unlimited then old(pending) else Add(old(pending), Sum(reentrant[..i]))
      {
        Request(reentrant[i]);
        SumAppend(reentrant[..i], reentrant[i]);
        assert reentrant[..i + 1] == reentrant[..i] + [reentrant[i]];
        AddAssociative(old(pending), Sum(reentrant[..i]), reentrant[i]);
        i := i + 1;
      }
      assert reentrant[..|reentrant|] == reentrant;
      recursive := false;
      newDemand := downstreamDemand;
    }

    /** `receive(_:_:)`: a value from the source at `index`. */
    method ReceiveValue(input: I, index: nat, downstreamDemand: Demand, reentrant: seq<Demand>) returns (r: Demand)
      requires Valid() && !recursive && index < count
      modifies this, buffers
      ensures Valid() && !recursive
      ensures terminated == old(terminated) && finished == old(finished) && upstreamFinished == old(upstreamFinished)
      ensures completions == old(completions)
      ensures old(demand) == Unlimited ==>
        && r == downstreamDemand && delivered == old(delivered) + [input]
        && demand == Unlimited && pending == old(pending) && buffers[..] == old(buffers[..])
      ensures old(demand) == NoDemand ==>
        && r == NoDemand && delivered == old(delivered)
        && demand == NoDemand && pending == old(pending)
        && buffers[..] == old(buffers[..])[index := Some(input)]
      ensures old(demand).Max? && old(demand).n > 0 ==>
        && r == Max(1) && delivered == old(delivered) + [input]
        && pending == NoDemand && buffers[..] == old(buffers[..])
        && demand == Add(Max(old(demand).n - 1), Add(downstreamDemand,
             if terminated || finished then old(pending) else Add(old(pending), Sum(reentrant))))
      ensures old(StubbedDemand()) ==> StubbedDemand()
    {
      if demand == Unlimited {
        r := SendValueDownstream(input, downstreamDemand, reentrant);
        return;
      }
      if demand == NoDemand {
        buffers[index] := Some(input);
        return NoDemand;
      }
      demand := Decrement(demand);
      var newDemand := SendValueDownstream(input, downstreamDemand, reentrant);
      demand := Add(demand, Add(newDemand, pending));
      pending := NoDemand;
      r := Max(1);
    }

    /** `subscriptions.allSatisfy { $0 == nil }`. */
    method AllSlotsEmpty() returns (empty: bool)
      requires Valid()
      ensures empty <==> forall i :: 0 <= i < count ==> subscriptions[i].None?
    {
      var i := 0;
      while i < subscriptions.Length
        invariant 0 <= i <= subscriptions.Length
        invariant forall j :: 0 <= j < i ==> subscriptions[j].None?
      {
        if subscriptions[i].Some? {
          return false;
        }
        i := i + 1;
      }
      return true;
    }

    /** Marks `completion` as forwarded (`finished` or `terminated`) and runs
        `lockedSendCompletionDownstream`: since the merge has then finished or
        terminated, every request the downstream makes during the call is
        ignored. */
    method ForwardCompletion(completion: Completion<F>, reentrant: seq<Demand>)
      requires Valid() && !recursive
      requires completion.Finished? ==> !finished && upstreamFinished >= count
      requires completion.Failure? ==> !terminated
      modifies this
      ensures Valid() && !recursive
      ensures completions == old(completions) + [completion]
      ensures finished == (old(finished) || completion.Finished?)
      ensures terminated == (old(terminated) || completion.Failure?)
      ensures demand == old(demand) && pending == old(pending)
      ensures upstreamFinished == old(upstreamFinished) && delivered == old(delivered)
    {
      if completion.Finished? {
        finished := true;
      } else {
        terminated := true;
      }
      recursive := true;
      completions := completions + [completion];
      assert completions[|completions| - 1] == completion;
      assert forall i :: 0 <= i < |old(completions)| ==> completions[i] == old(completions)[i];
      var i := 0;
      while i < |reentrant|
        invariant 0 <= i <= |reentrant|
        invariant Valid() && recursive
        invariant completions == old(completions) + [completion]
        invariant finished == (old(finished) || completion.Finished?)
        invariant terminated == (old(terminated) || completion.Failure?)
        invariant demand == old(demand) && pending == old(pending)
        invariant upstreamFinished == old(upstreamFinished) && delivered == old(delivered)
      {
        Request(reentrant[i]);
        i := i + 1;
      }
      recursive := false;
    }

    /** `receive(completion:_:)`: completion of the source at `index`. */
    method ReceiveCompletion(completion: Completion<F>, index: nat, reentrant: seq<Demand>) returns (cancelled: seq<Upstream>)
      requires Valid() && !recursive && index < count
      modifies this, subscriptions
      ensures Valid() && !recursive
      ensures demand == old(demand) && pending == old(pending) && delivered == old(delivered)
      ensures completion.Finished? ==>
        && cancelled == []
        && upstreamFinished == old(upstreamFinished) + 1
        && subscriptions[..] == old(subscriptions[..])[index := None]
        && terminated == old(terminated)
        && var forwards := upstreamFinished == count && forall i :: 0 <= i < count ==> subscriptions[i].None?;
           && finished == (old(finished) || forwards)
           && completions == old(completions) + (if forwards then [completion] else [])
      ensures completion.Failure? && old(terminated) ==>
        && cancelled == [] && terminated
        && subscriptions[..] == old(subscriptions[..])
        && completions == old(completions)
        && finished == old(finished) && upstreamFinished == old(upstreamFinished)
      ensures completion.Failure? && !old(terminated) ==>
        && terminated
        && cancelled == Others(old(subscriptions[..]), index)
        && (forall i :: 0 <= i < count ==> subscriptions[i].None?)
        && completions == old(completions) + [completion]
        && finished == old(finished) && upstreamFinished == old(upstreamFinished)
      ensures old(StubbedDemand()) ==> StubbedDemand()
    {
      match completion
      case Finished =>
        cancelled := [];
        upstreamFinished := upstreamFinished + 1;
        subscriptions[index] := None;
        if upstreamFinished != count {
          return;
        }
        var allEmpty := AllSlotsEmpty();
        if !allEmpty {
          return;
        }
        ForwardCompletion(completion, reentrant);
      case Failure(_) =>
        if terminated {
          return [];
        }
        var snapshot := subscriptions[..];
        forall i | 0 <= i < subscriptions.Length {
          subscriptions[i] := None;
        }
        cancelled := CancelOthers(snapshot, index);
        ForwardCompletion(completion, reentrant);
    }
  }

  /** `Publishers.MergeMany`: the upstream publishers, in order. */
  datatype MergeMany<P> = MergeMany(publishers: seq<P>)

  /** `MergeMany.merge(with:)`: one more publisher, after the others. */
  function MergeWith<P>(m: MergeMany<P>, other: P): (r: MergeMany<P>)
    ensures |r.publishers| == |m.publishers| + 1
    ensures r.publishers[..|m.publishers|] == m.publishers && r.publishers[|m.publishers|] == other
  {
    MergeMany(m.publishers + [other])
  }

  /** `MergeMany.receive(subscriber:)`: one `Merged` sized to the number of
      publishers, and the index each publisher's `Side` reports under. */
  method Subscribe<P, I, F>(m: MergeMany<P>) returns (merged: Merged<I, F>, sides: seq<nat>)
    ensures fresh(merged) && fresh(merged.subscriptions) && fresh(merged.buffers)
    ensures merged.Valid() && merged.StubbedDemand() && !merged.recursive
    ensures merged.count == |m.publishers| && |sides| == |m.publishers|
    ensures forall i :: 0 <= i < merged.count ==> merged.subscriptions[i].None? && merged.buffers[i].None?
    ensures merged.delivered == [] && merged.completions == [] && merged.upstreamFinished == 0
    ensures forall i :: 0 <= i < |sides| ==> sides[i] == i && i < merged.count
  {
    merged := new Merged(|m.publishers|);
    sides := [];
    var i := 0;
    while i < |m.publishers|
      invariant 0 <= i <= |m.publishers|
      invariant |sides| == i && forall j :: 0 <= j < i ==> sides[j] == j
    {
      sides := sides + [i];
      i := i + 1;
    }
  }
}

/** Two sources merged, driven through the calls Combine makes. */
module MergeClients {
  import opened Base
  import opened Subscribers
  import opened Merging

  /** With unlimited demand, values from both sources are forwarded as they
      arrive, and the finished completion is forwarded once, after the last
      source finished. */
  method UnlimitedDemand() returns (merged: Merged<int, ()>)
    ensures merged.Valid() && merged.StubbedDemand()
    ensures merged.delivered == [1, 2, 3] && merged.completions == [Finished]
  {
    merged := new Merged(2);
    var reply := merged.ReceiveSubscription(Upstream(0), 0);
    assert reply == RequestFrom(Max(1));
    reply := merged.ReceiveSubscription(Upstream(1), 1);
    merged.Request(Unlimited);
    var demand := merged.ReceiveValue(1, 0, NoDemand, []);
    demand := merged.ReceiveValue(2, 1, NoDemand, [Max(3)]);
    var cancelled := merged.ReceiveCompletion(Finished, 0, []);
    assert merged.completions == [];
    demand := merged.ReceiveValue(3, 1, NoDemand, []);
    cancelled := merged.ReceiveCompletion(Finished, 1, []);
  }

  /** A finite request is dropped: the demand stays `.none`, so values are
      parked in the buffers, a later one overwrites an earlier one, and none
      reaches the downstream. */
  method FiniteDemand() returns (merged: Merged<int, ()>)
    ensures merged.Valid() && merged.StubbedDemand()
    ensures merged.delivered == [] && merged.demand == NoDemand
    ensures merged.count == 2 && merged.buffers[0] == Some(2) && merged.buffers[1] == None
  {
    merged := new Merged(2);
    var reply := merged.ReceiveSubscription(Upstream(0), 0);
    reply := merged.ReceiveSubscription(Upstream(1), 1);
    merged.Request(Max(5));
    var demand := merged.ReceiveValue(1, 0, NoDemand, []);
    demand := merged.ReceiveValue(2, 0, NoDemand, []);
  }

  /** The first failure cancels the other source, is forwarded, and a second
      failure is ignored. */
  method FirstFailureWins() returns (merged: Merged<int, string>, cancelled: seq<Upstream>)
    ensures merged.Valid()
    ensures cancelled == [Upstream(1)] && merged.completions == [Completion.Failure("a")]
  {
    merged := new Merged(2);
    assert merged.subscriptions[..] == [None, None];
    var reply := merged.ReceiveSubscription(Upstream(0), 0);
    reply := merged.ReceiveSubscription(Upstream(1), 1);
    assert merged.subscriptions[..] == [Some(Upstream(0)), Some(Upstream(1))];
    assert [Some(Upstream(0)), Some(Upstream(1))][..1] == [Some(Upstream(0))];
    assert Others([Some(Upstream(0))], 0) == [];
    cancelled := merged.ReceiveCompletion(Completion.Failure("a"), 0, [Unlimited]);
    var again := merged.ReceiveCompletion(Completion.Failure("b"), 1, []);
  }

  /** `receive(_:_:)` does not look at `terminated`: with unlimited demand, a
      value a source sends after the merge failed is still forwarded. */
  method ValueAfterFailure() returns (merged: Merged<int, string>)
    ensures merged.Valid() && merged.terminated
    ensures merged.completions == [Completion.Failure("a")] && merged.delivered == [7]
  {
    merged := new Merged(2);
    var reply := merged.ReceiveSubscription(Upstream(0), 0);
    reply := merged.ReceiveSubscription(Upstream(1), 1);
    merged.Request(Unlimited);
    var cancelled := merged.ReceiveCompletion(Completion.Failure("a"), 0, []);
    var demand := merged.ReceiveValue(7, 1, NoDemand, []);
  }

  /** A `MergeMany` of no publishers: no source can ever call back, and
      subscribing and requesting forward no completion. */
  method EmptyMerge() returns (merged: Merged<int, ()>)
    ensures merged.Valid() && merged.count == 0
    ensures merged.completions == [] && !merged.finished
  {
    var sides;
    merged, sides := Subscribe<int, int, ()>(MergeMany([]));
    merged.Request(Unlimited);
  }
}
