/** `Subscribers.Demand` and `Subscribers.Completion` as the merge engine uses
    them. */
module Subscribers {

  /** A subscriber's request: any number of values, or at most `n` more. */
  datatype Demand = Unlimited | Max(n: nat)

  /** `.none`. */
  const NoDemand: Demand := Max(0)

  datatype Completion<F> = Finished | Failure(error: F)

  /** `Demand + Demand`: `.unlimited` absorbs everything. */
  function Add(a: Demand, b: Demand): (r: Demand)
    ensures r.Unlimited? <==> a.Unlimited? || b.Unlimited?
  {
    if a.Unlimited? || b.Unlimited? then Unlimited else Max(a.n + b.n)
  }

  /** `demand -= 1` on a demand that is not `.none`. */
  function Decrement(d: Demand): (r: Demand)
    requires d != NoDemand
    ensures Add(r, Max(1)) == d
  {
    if d.Unlimited? then Unlimited else Max(d.n - 1)
  }

  /** Demand requested by a sequence of `request` calls, added up. */
  function Sum(ds: seq<Demand>): Demand
  {
    if ds == [] then NoDemand else Add(ds[0], Sum(ds[1..]))
  }

  lemma AddCommutative(a: Demand, b: Demand)
    ensures Add(a, b) == Add(b, a)
  {
  }

  lemma AddAssociative(a: Demand, b: Demand, c: Demand)
    ensures Add(Add(a, b), c) == Add(a, Add(b, c))
  {
  }

  /** `.none` adds nothing; `.unlimited` absorbs. */
  lemma AddUnits(a: Demand)
    ensures Add(a, NoDemand) == a && Add(NoDemand, a) == a
    ensures Add(a, Unlimited) == Unlimited
  {
  }

  /** Adding the requests one by one is adding their sum. */
  lemma {:induction false} SumAppend(ds: seq<Demand>, d: Demand)
    ensures Sum(ds + [d]) == Add(Sum(ds), d)
  {
    if ds == [] {
      assert [] + [d] == [d];
    } else {
      assert (ds + [d])[1..] == ds[1..] + [d];
      SumAppend(ds[1..], d);
    }
  }

  /** The sum is unlimited exactly when one request is. */
  lemma {:induction false} SumUnlimited(ds: seq<Demand>)
    ensures Sum(ds).Unlimited? <==> exists i :: 0 <= i < |ds| && ds[i].Unlimited?
  {
    if ds != [] {
      SumUnlimited(ds[1..]);
      if Sum(ds[1..]).Unlimited? {
        var i :| 0 <= i < |ds[1..]| && ds[1..][i].Unlimited?;
        assert ds[i + 1].Unlimited?;
      }
      if exists i :: 0 <= i < |ds| && ds[i].Unlimited? {
        var i :| 0 <= i < |ds| && ds[i].Unlimited?;
        if i > 0 {
          assert ds[1..][i - 1].Unlimited?;
        }
      }
    }
  }
}
