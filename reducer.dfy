/** The reducer algebra.

    A Swift reducer `(inout State, Action, Environment) -> Effect<Action, Never>`
    is state passing: here it is a function from the state, the action and the
    environment to the new state and the returned effect. A reducer can also
    abort the program (`fatalError()`, an out-of-range array subscript), so it
    returns an `Outcome`. Key paths and case paths are explicit accessor pairs. */
module Reducers {
  import opened Base
  import Effects

  type ActionEffect<A> = Effects.Effect<A, Effects.Never>

  datatype Step<S, A> = Step(state: S, effect: ActionEffect<A>)

  type Reducer<!S, !A, !Env> = (S, A, Env) -> Outcome<Step<S, A>>

  /** A `WritableKeyPath<Whole, Part>`: read the part, write it back. */
  datatype KeyPath<!W, !P> = KeyPath(get: W -> P, put: (W, P) -> W)

  /** A `CasePath<Whole, Part>`: try to extract the part, embed a part. */
  datatype CasePath<!W, !P> = CasePath(extract: W -> Option<P>, embed: P -> W)

  /** The laws a stored property's key path obeys. */
  ghost predicate LawfulKeyPath<W(!new), P(!new)>(kp: KeyPath<W, P>) {
    && (forall w, p :: kp.get(kp.put(w, p)) == p)
    && (forall w :: kp.put(w, kp.get(w)) == w)
    && (forall w, p, q :: kp.put(kp.put(w, p), q) == kp.put(w, q))
  }

  /** `Reducer.empty`. */
  function Empty<S, A, Env>(): Reducer<S, A, Env>
  {
    (s: S, a: A, e: Env) => Returned(Step(s, Effects.None()))
  }

  /** `reducers.map { $0.reducer(&value, action, environment) }` inside
      `combine`: every reducer in list order, each on the state the previous
      one left, collecting the effects. */
  function RunAll<S, A, Env>(rs: seq<Reducer<S, A, Env>>, s: S, a: A, e: Env): Outcome<(S, seq<ActionEffect<A>>)>
    decreases |rs|
  {
    if rs == [] then Returned((s, []))
    else
      match rs[0](s, a, e)
      case Trapped => Trapped
      case Returned(first) =>
        match RunAll(rs[1..], first.state, a, e)
        case Trapped => Trapped
        case Returned(rest) => Returned((rest.0, [first.effect] + rest.1))
  }

  /** `Reducer.combine([Reducer])`: after running every reducer it hands the
      effects to `Effect.merge`, which traps. */
  function Combine<S, A, Env>(rs: seq<Reducer<S, A, Env>>): Reducer<S, A, Env>
  {
    (s: S, a: A, e: Env) =>
      match RunAll(rs, s, a, e)
      case Trapped => Trapped
      case Returned(ran) =>
        match Effects.Merge(ran.1)
        case Trapped => Trapped
        case Returned(merged) => Returned(Step(ran.0, merged))
  }

  /** `combined(with:)`: `.combine(self, other)`. */
  function Combined<S, A, Env>(r: Reducer<S, A, Env>, other: Reducer<S, A, Env>): Reducer<S, A, Env>
  {
    Combine([r, other])
  }

  /** `pullback(state: WritableKeyPath, action: CasePath, environment:)`. */
  function Pullback<S, A, Env, GS, GA, GE>(
    r: Reducer<S, A, Env>, toLocalState: KeyPath<GS, S>, toLocalAction: CasePath<GA, A>, toLocalEnvironment: GE -> Env
  ): Reducer<GS, GA, GE>
  {
    (gs: GS, ga: GA, ge: GE) =>
      match toLocalAction.extract(ga)
      case None => Returned(Step(gs, Effects.None()))
      case Some(la) =>
        match r(toLocalState.get(gs), la, toLocalEnvironment(ge))
        case Trapped => Trapped
        case Returned(st) =>
          Returned(Step(toLocalState.put(gs, st.state), Effects.Map(st.effect, toLocalAction.embed)))
  }

  /** `pullback(state: CasePath, action: CasePath, environment:)`. */
  function PullbackCase<S, A, Env, GS, GA, GE>(
    r: Reducer<S, A, Env>, toLocalState: CasePath<GS, S>, toLocalAction: CasePath<GA, A>, toLocalEnvironment: GE -> Env
  ): Reducer<GS, GA, GE>
  {
    (gs: GS, ga: GA, ge: GE) =>
      match toLocalAction.extract(ga)
      case None => Returned(Step(gs, Effects.None()))
      case Some(la) =>
        match toLocalState.extract(gs)
        case None => Returned(Step(gs, Effects.None()))
        case Some(ls) =>
          match r(ls, la, toLocalEnvironment(ge))
          case Trapped => Trapped
          case Returned(st) =>
            Returned(Step(toLocalState.embed(st.state), Effects.Map(st.effect, toLocalAction.embed)))
  }

  /** `optional()`: lifts a reducer to an optional state. */
  function Optional<S, A, Env>(r: Reducer<S, A, Env>): Reducer<Option<S>, A, Env>
  {
    (s: Option<S>, a: A, e: Env) =>
      match s
      case None => Returned(Step(None, Effects.None()))
      case Some(x) =>
        match r(x, a, e)
        case Trapped => Trapped
        case Returned(st) => Returned(Step(Some(st.state), st.effect))
  }

  /** `forEach` over an array: the element is read with an unchecked
      subscript, which traps when the index is out of range. */
  function ForEachIndexed<S, A, Env, GS, GA, GE>(
    r: Reducer<S, A, Env>, toLocalState: KeyPath<GS, seq<S>>, toLocalAction: CasePath<GA, (int, A)>, toLocalEnvironment: GE -> Env
  ): Reducer<GS, GA, GE>
  {
    (gs: GS, ga: GA, ge: GE) =>
      match toLocalAction.extract(ga)
      case None => Returned(Step(gs, Effects.None()))
      case Some(tagged) =>
        var xs := toLocalState.get(gs);
        var index := tagged.0;
        if !(0 <= index < |xs|) then Trapped
        else
          match r(xs[index], tagged.1, toLocalEnvironment(ge))
          case Trapped => Trapped
          case Returned(st) =>
            Returned(Step(
              toLocalState.put(gs, xs[index := st.state]),
              Effects.Map(st.effect, (a: A) => toLocalAction.embed((index, a)))))
  }

  /** `forEach` over a dictionary: an absent key is ignored. */
  function ForEachKeyed<S, A, Env, GS, GA, GE, K>(
    r: Reducer<S, A, Env>, toLocalState: KeyPath<GS, map<K, S>>, toLocalAction: CasePath<GA, (K, A)>, toLocalEnvironment: GE -> Env
  ): Reducer<GS, GA, GE>
  {
    (gs: GS, ga: GA, ge: GE) =>
      match toLocalAction.extract(ga)
      case None => Returned(Step(gs, Effects.None()))
      case Some(tagged) =>
        var m := toLocalState.get(gs);
        var key := tagged.0;
        if key !in m then Returned(Step(gs, Effects.None()))
        else
          match r(m[key], tagged.1, toLocalEnvironment(ge))
          case Trapped => Trapped
          case Returned(st) =>
            Returned(Step(
              toLocalState.put(gs, m[key := st.state]),
              Effects.Map(st.effect, (a: A) => toLocalAction.embed((key, a)))))
  }

  /** `run(_:_:_:)`. */
  function Run<S, A, Env>(r: Reducer<S, A, Env>, s: S, a: A, e: Env): Outcome<Step<S, A>>
  {
    r(s, a, e)
  }

  /** `callAsFunction(_:_:_:)`. */
  function CallAsFunction<S, A, Env>(r: Reducer<S, A, Env>, s: S, a: A, e: Env): Outcome<Step<S, A>>
  {
    r(s, a, e)
  }

  // ---------------------------------------------------------------------------
  // Laws

  lemma EmptyIsNoOp<S, A, Env>(s: S, a: A, e: Env)
    ensures Empty<S, A, Env>()(s, a, e) == Returned(Step(s, Effects.None()))
  {
  }

  /** Left fold of the state through the reducers, when none of them traps. */
  function FoldStates<S, A, Env>(rs: seq<Reducer<S, A, Env>>, s: S, a: A, e: Env): Option<S>
    decreases |rs|
  {
    if rs == [] then Some(s)
    else match rs[0](s, a, e)
      case Trapped => None
      case Returned(st) => FoldStates(rs[1..], st.state, a, e)
  }

  /** `combine` runs its reducers in list order, each on the state the one
      before left: running `rs1 + rs2` is running `rs1`, then `rs2` from where
      it stopped, with the effects in list order. */
  lemma {:induction false} RunAllAppend<S, A, Env>(rs1: seq<Reducer<S, A, Env>>, rs2: seq<Reducer<S, A, Env>>, s: S, a: A, e: Env)
    ensures RunAll(rs1 + rs2, s, a, e) ==
      match RunAll(rs1, s, a, e)
      case Trapped => Trapped
      case Returned(first) =>
        match RunAll(rs2, first.0, a, e)
        case Trapped => Trapped
        case Returned(rest) => Returned((rest.0, first.1 + rest.1))
    decreases |rs1|
  {
    if rs1 == [] {
      assert rs1 + rs2 == rs2;
      match RunAll(rs2, s, a, e)
      case Trapped =>
      case Returned(rest) => assert [] + rest.1 == rest.1;
    } else {
      assert (rs1 + rs2)[0] == rs1[0];
      assert (rs1 + rs2)[1..] == rs1[1..] + rs2;
      match rs1[0](s, a, e)
      case Trapped =>
      case Returned(st) =>
        RunAllAppend(rs1[1..], rs2, st.state, a, e);
        match RunAll(rs1[1..], st.state, a, e)
        case Trapped =>
        case Returned(mid) =>
          match RunAll(rs2, mid.0, a, e)
          case Trapped =>
          case Returned(rest) =>
            assert [st.effect] + (mid.1 + rest.1) == ([st.effect] + mid.1) + rest.1;
    }
  }

  /** The final state of the reducers `combine` runs is the left fold, and
      there is one effect per reducer. */
  lemma {:induction false} RunAllFolds<S, A, Env>(rs: seq<Reducer<S, A, Env>>, s: S, a: A, e: Env)
    ensures RunAll(rs, s, a, e).Returned? <==> FoldStates(rs, s, a, e).Some?
    ensures RunAll(rs, s, a, e).Returned? ==>
      RunAll(rs, s, a, e).value.0 == FoldStates(rs, s, a, e).value && |RunAll(rs, s, a, e).value.1| == |rs|
    decreases |rs|
  {
    if rs != [] {
      match rs[0](s, a, e)
      case Trapped =>
      case Returned(st) => RunAllFolds(rs[1..], st.state, a, e);
    }
  }

  /** `combine` (and so `combined(with:)`) always ends in `Effect.merge`'s
      `fatalError()`, whatever its reducers, state and action. */
  lemma CombineTraps<S, A, Env>(rs: seq<Reducer<S, A, Env>>, s: S, a: A, e: Env)
    ensures Combine(rs)(s, a, e) == Trapped
    ensures Combined(Empty(), Empty())(s, a, e) == Trapped
  {
    match RunAll(rs, s, a, e)
    case Trapped =>
    case Returned(ran) => assert Effects.Merge(ran.1).Trapped?;
    var both := [Empty<S, A, Env>(), Empty()];
    match RunAll(both, s, a, e)
    case Trapped =>
    case Returned(ran) => assert Effects.Merge(ran.1).Trapped?;
  }

  /** Key-path `pullback` ignores actions it cannot extract. */
  lemma PullbackMiss<S, A, Env, GS, GA, GE>(
    r: Reducer<S, A, Env>, toLocalState: KeyPath<GS, S>, toLocalAction: CasePath<GA, A>, toLocalEnvironment: GE -> Env,
    gs: GS, ga: GA, ge: GE)
    requires toLocalAction.extract(ga).None?
    ensures Pullback(r, toLocalState, toLocalAction, toLocalEnvironment)(gs, ga, ge) == Returned(Step(gs, Effects.None()))
  {
  }

  /** Key-path `pullback` on an extracted action runs the local reducer on the
      addressed field alone: the field holds the local result, writing the old
      field back restores the old global state, and every output is embedded. */
  lemma PullbackHit<S(!new), A, Env, GS(!new), GA, GE>(
    r: Reducer<S, A, Env>, toLocalState: KeyPath<GS, S>, toLocalAction: CasePath<GA, A>, toLocalEnvironment: GE -> Env,
    gs: GS, ga: GA, ge: GE)
    requires LawfulKeyPath(toLocalState)
    requires toLocalAction.extract(ga).Some?
    requires r(toLocalState.get(gs), toLocalAction.extract(ga).value, toLocalEnvironment(ge)).Returned?
    ensures
      var local := r(toLocalState.get(gs), toLocalAction.extract(ga).value, toLocalEnvironment(ge)).value;
      var global := Pullback(r, toLocalState, toLocalAction, toLocalEnvironment)(gs, ga, ge);
      && global.Returned?
      && toLocalState.get(global.value.state) == local.state
      && toLocalState.put(global.value.state, toLocalState.get(gs)) == gs
      && global.value.effect == Effects.Map(local.effect, toLocalAction.embed)
  {
    var local := r(toLocalState.get(gs), toLocalAction.extract(ga).value, toLocalEnvironment(ge)).value;
    var g2 := toLocalState.put(gs, local.state);
    assert toLocalState.put(g2, toLocalState.get(gs)) == toLocalState.put(gs, toLocalState.get(gs));
  }

  /** Case-path `pullback` ignores an action or a state of another case;
      otherwise the global state becomes the embedded local result. */
  lemma PullbackCaseRouting<S, A, Env, GS, GA, GE>(
    r: Reducer<S, A, Env>, toLocalState: CasePath<GS, S>, toLocalAction: CasePath<GA, A>, toLocalEnvironment: GE -> Env,
    gs: GS, ga: GA, ge: GE)
    ensures
      var global := PullbackCase(r, toLocalState, toLocalAction, toLocalEnvironment)(gs, ga, ge);
      (toLocalAction.extract(ga).None? || toLocalState.extract(gs).None?) ==> global == Returned(Step(gs, Effects.None()))
    ensures
      var global := PullbackCase(r, toLocalState, toLocalAction, toLocalEnvironment)(gs, ga, ge);
      toLocalAction.extract(ga).Some? && toLocalState.extract(gs).Some? ==>
        match r(toLocalState.extract(gs).value, toLocalAction.extract(ga).value, toLocalEnvironment(ge))
        case Trapped => global == Trapped
        case Returned(local) =>
          global == Returned(Step(toLocalState.embed(local.state), Effects.Map(local.effect, toLocalAction.embed)))
  {
  }

  /** `optional()` ignores a nil state and keeps a present state present. */
  lemma OptionalPresence<S, A, Env>(r: Reducer<S, A, Env>, s: Option<S>, a: A, e: Env)
    ensures s.None? ==> Optional(r)(s, a, e) == Returned(Step(None, Effects.None()))
    ensures s.Some? ==>
      match r(s.value, a, e)
      case Trapped => Optional(r)(s, a, e) == Trapped
      case Returned(local) => Optional(r)(s, a, e) == Returned(Step(Some(local.state), local.effect))
  {
  }

  /** Array `forEach`: an index out of range traps; an addressed element is the
      only one that changes (writing the old array back restores the old global
      state), the array keeps its length, and every output is tagged with the
      index. */
  lemma ForEachIndexedHit<S(!new), A, Env, GS(!new), GA, GE>(
    r: Reducer<S, A, Env>, toLocalState: KeyPath<GS, seq<S>>, toLocalAction: CasePath<GA, (int, A)>, toLocalEnvironment: GE -> Env,
    gs: GS, ga: GA, ge: GE)
    requires LawfulKeyPath(toLocalState)
    requires toLocalAction.extract(ga).Some?
    ensures
      var tagged := toLocalAction.extract(ga).value;
      var xs := toLocalState.get(gs);
      var global := ForEachIndexed(r, toLocalState, toLocalAction, toLocalEnvironment)(gs, ga, ge);
      !(0 <= tagged.0 < |xs|) ==> global == Trapped
    ensures
      var tagged := toLocalAction.extract(ga).value;
      var xs := toLocalState.get(gs);
      var global := ForEachIndexed(r, toLocalState, toLocalAction, toLocalEnvironment)(gs, ga, ge);
      0 <= tagged.0 < |xs| && r(xs[tagged.0], tagged.1, toLocalEnvironment(ge)).Returned? ==>
        var local := r(xs[tagged.0], tagged.1, toLocalEnvironment(ge)).value;
        var ys := toLocalState.get(global.value.state);
        && global.Returned?
        && toLocalState.put(global.value.state, xs) == gs
        && |ys| == |xs|
        && ys[tagged.0] == local.state
        && (forall j :: 0 <= j < |xs| && j != tagged.0 ==> ys[j] == xs[j])
        && |global.value.effect.outputs| == |local.effect.outputs|
        && global.value.effect.term == local.effect.term
        && (forall k :: 0 <= k < |local.effect.outputs| ==>
              global.value.effect.outputs[k] == toLocalAction.embed((tagged.0, local.effect.outputs[k])))
  {
  }

  /** Array `forEach` ignores actions it cannot extract. */
  lemma ForEachIndexedMiss<S, A, Env, GS, GA, GE>(
    r: Reducer<S, A, Env>, toLocalState: KeyPath<GS, seq<S>>, toLocalAction: CasePath<GA, (int, A)>, toLocalEnvironment: GE -> Env,
    gs: GS, ga: GA, ge: GE)
    requires toLocalAction.extract(ga).None?
    ensures ForEachIndexed(r, toLocalState, toLocalAction, toLocalEnvironment)(gs, ga, ge) == Returned(Step(gs, Effects.None()))
  {
  }

  /** Dictionary `forEach`: a missing key or a foreign action changes nothing;
      an addressed entry is the only one that changes (writing the old
      dictionary back restores the old global state), the key set stays the
      same, and every output is tagged with the key. */
  lemma ForEachKeyedRouting<S(!new), A, Env, GS(!new), GA, GE, K(!new)>(
    r: Reducer<S, A, Env>, toLocalState: KeyPath<GS, map<K, S>>, toLocalAction: CasePath<GA, (K, A)>, toLocalEnvironment: GE -> Env,
    gs: GS, ga: GA, ge: GE)
    requires LawfulKeyPath(toLocalState)
    ensures
      var global := ForEachKeyed(r, toLocalState, toLocalAction, toLocalEnvironment)(gs, ga, ge);
      (toLocalAction.extract(ga).None? || toLocalAction.extract(ga).value.0 !in toLocalState.get(gs)) ==>
        global == Returned(Step(gs, Effects.None()))
    ensures
      var global := ForEachKeyed(r, toLocalState, toLocalAction, toLocalEnvironment)(gs, ga, ge);
      var m := toLocalState.get(gs);
      toLocalAction.extract(ga).Some? && toLocalAction.extract(ga).value.0 in m ==>
        var key := toLocalAction.extract(ga).value.0;
        r(m[key], toLocalAction.extract(ga).value.1, toLocalEnvironment(ge)).Returned? ==>
          var local := r(m[key], toLocalAction.extract(ga).value.1, toLocalEnvironment(ge)).value;
          var m' := toLocalState.get(global.value.state);
          && global.Returned?
          && toLocalState.put(global.value.state, m) == gs
          && m'.Keys == m.Keys
          && m'[key] == local.state
          && (forall k :: k in m && k != key ==> m'[k] == m[k])
          && |global.value.effect.outputs| == |local.effect.outputs|
          && global.value.effect.term == local.effect.term
          && (forall i :: 0 <= i < |local.effect.outputs| ==>
                global.value.effect.outputs[i] == toLocalAction.embed((key, local.effect.outputs[i])))
  {
  }

  /** `run` and `callAsFunction` both invoke the wrapped reducer unchanged. */
  lemma RunIsApplication<S, A, Env>(r: Reducer<S, A, Env>, s: S, a: A, e: Env)
    ensures Run(r, s, a, e) == r(s, a, e)
    ensures CallAsFunction(r, s, a, e) == Run(r, s, a, e)
  {
  }

  /** Pulling back along two key paths and case paths in turn is pulling back
      once along their compositions (the outer key path must write back what it
      read unchanged, since the outer pullback writes the field even when the
      inner one ignores the action). */
  lemma PullbackComposes<S, A, Env, MS(!new), MA, ME, GS(!new), GA, GE>(
    r: Reducer<S, A, Env>,
    inner: KeyPath<MS, S>, innerAction: CasePath<MA, A>, innerEnv: ME -> Env,
    outer: KeyPath<GS, MS>, outerAction: CasePath<GA, MA>, outerEnv: GE -> ME,
    gs: GS, ga: GA, ge: GE)
    requires LawfulKeyPath(outer)
    ensures
      var composedState := KeyPath(
        (g: GS) => inner.get(outer.get(g)),
        (g: GS, s: S) => outer.put(g, inner.put(outer.get(g), s)));
      var composedAction := CasePath(
        (g: GA) => match outerAction.extract(g) case None => None case Some(m) => innerAction.extract(m),
        (a: A) => outerAction.embed(innerAction.embed(a)));
      var composedEnv := (g: GE) => innerEnv(outerEnv(g));
      Pullback(Pullback(r, inner, innerAction, innerEnv), outer, outerAction, outerEnv)(gs, ga, ge)
        == Pullback(r, composedState, composedAction, composedEnv)(gs, ga, ge)
  {
    var composedAction := CasePath(
      (g: GA) => match outerAction.extract(g) case None => None case Some(m) => innerAction.extract(m),
      (a: A) => outerAction.embed(innerAction.embed(a)));
    var composed := Pullback(r, KeyPath(
        (g: GS) => inner.get(outer.get(g)),
        (g: GS, s: S) => outer.put(g, inner.put(outer.get(g), s))), composedAction, (g: GE) => innerEnv(outerEnv(g)));
    match outerAction.extract(ga)
    case None =>
      assert composedAction.extract(ga).None?;
      assert composed(gs, ga, ge) == Returned(Step(gs, Effects.None()));
    case Some(ma) =>
      match innerAction.extract(ma)
      case None =>
        assert composedAction.extract(ga).None?;
        assert composed(gs, ga, ge) == Returned(Step(gs, Effects.None()));
        var innerPulled := Pullback(r, inner, innerAction, innerEnv);
        assert innerPulled(outer.get(gs), ma, outerEnv(ge)) == Returned(Step(outer.get(gs), Effects.None()));
        assert outer.put(gs, outer.get(gs)) == gs;
        assert Effects.Map(Effects.None<MA, Effects.Never>(), outerAction.embed) == Effects.None();
      case Some(la) =>
        match r(inner.get(outer.get(gs)), la, innerEnv(outerEnv(ge)))
        case Trapped =>
        case Returned(st) =>
          Effects.MapCompose(st.effect, innerAction.embed, outerAction.embed);
          assert Effects.Map(st.effect, composedAction.embed)
            == Effects.Map(st.effect, (o: A) => outerAction.embed(innerAction.embed(o)));
  }
}
