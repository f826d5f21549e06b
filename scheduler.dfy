/** The scheduler of lib/index.ts as a state machine over a `World` value: the
    module-level state (`state`, `toRun`, `dependents`, `cleanups`, `active`,
    `streamsToResolve`, `nextTicks`, `doNotReCompute`, `children`, `stats`)
    together with every stream's `value` and `next`. Each exported function of
    the source is a function from a world to a world (and a result). */
module Scheduler {
  import opened Common
  import opened Graph

  /** A body: the calls it makes, and how it combines the previous value of its
      stream (`fn(stream.value)`) with what those calls returned. */
  datatype Body = Body(steps: seq<Step>, fn: (Value, seq<Value>) -> Value)

  /** The tag of a stream object, with a computation's body. A generator's body
      is only the tracked reads it makes before it first suspends. */
  datatype Kind = Data | Sync(body: Body) | Generator(steps: seq<Step>)

  datatype State = Idle | Propagating | Frozen

  /** A write deferred to `nextTicks`: `() => accessor(...args)`. */
  datatype Deferred = Deferred(stream: Handle, arg: Arg)

  datatype World = World(
    kinds: seq<Kind>,
    value: seq<Value>,
    next: seq<Value>,
    state: State,
    toRun: seq<Handle>,
    dependents: Deps,
    cleanupOrder: seq<Handle>,                 // key order of the `cleanups` Map
    cleanups: map<Handle, seq<CleanupId>>,
    active: seq<Handle>,                       // active[0] is the running computation
    resolve: seq<Handle>,                      // `streamsToResolve`
    nextTicks: seq<Deferred>,
    doNotReCompute: seq<Handle>,
    children: map<Handle, seq<Handle>>,
    ticks: nat,                                // `stats.ticks`
    evaluated: nat,                            // `stats.computations.evaluated`
    called: seq<CleanupId>)                    // every cleanup callback invoked, in order

  predicate IsData(w: World, x: Handle)
  {
    x < |w.kinds| && w.kinds[x].Data?
  }

  predicate IsComputation(w: World, x: Handle)
  {
    IsComputationIn(w.kinds, x)
  }

  predicate IsComputationIn(kinds: seq<Kind>, x: Handle)
  {
    x < |kinds| && !kinds[x].Data?
  }

  /** The generator computations, which `computeDependents` adds but does not expand. */
  function Generators(w: World): set<Handle>
  {
    set x | 0 <= x < |w.kinds| && w.kinds[x].Generator?
  }

  function StepsOf(k: Kind): seq<Step>
  {
    match k
    case Data => []
    case Sync(b) => b.steps
    case Generator(steps) => steps
  }

  ghost predicate BodiesBelow(kinds: seq<Kind>)
  {
    forall f | 0 <= f < |kinds| :: StepsBelow(StepsOf(kinds[f]), f)
  }

  ghost predicate ReadersAreComputations(kinds: seq<Kind>, g: Deps)
  {
    forall k, y | k in g && y in g[k] :: IsComputationIn(kinds, y)
  }

  ghost predicate AllComputations(kinds: seq<Kind>, xs: seq<Handle>)
  {
    forall x | x in xs :: IsComputationIn(kinds, x)
  }

  ghost predicate StackOfComputations(kinds: seq<Kind>, xs: seq<Handle>)
  {
    forall i | 0 <= i < |xs| :: IsComputationIn(kinds, xs[i])
  }

  ghost predicate DeferredToData(kinds: seq<Kind>, ds: seq<Deferred>)
  {
    forall i | 0 <= i < |ds| :: ds[i].stream < |kinds| && kinds[ds[i].stream].Data?
  }

  /** A stream whose pending value differs from its committed one awaits the commit. */
  ghost predicate Settled(value: seq<Value>, next: seq<Value>, resolve: seq<Handle>)
    requires |value| == |next|
  {
    forall x | 0 <= x < |value| && x !in resolve :: value[x] == next[x]
  }

  ghost predicate HasEdge(g: Deps, k: Handle, y: Handle)
  {
    y in Succ(g, k)
  }

  ghost predicate ChildrenEmpty(w: World)
  {
    forall k | k in w.children :: w.children[k] == []
  }

  /** No computation has children and none is banned from recomputation. The
      code never adds to `children`, so every state the module reaches is so. */
  ghost predicate Unbanned(w: World)
  {
    ChildrenEmpty(w) && w.doNotReCompute == []
  }

  /** The invariant every operation keeps. */
  ghost predicate Valid(w: World)
  {
    && |w.value| == |w.kinds| && |w.next| == |w.kinds|
    && Upward(w.dependents, |w.kinds|)
    && ReadersAreComputations(w.kinds, w.dependents)
    && AllComputations(w.kinds, w.toRun) && NoDup(w.toRun)
    && StackOfComputations(w.kinds, w.active)
    && Bounded(w.resolve, |w.kinds|)
    && DeferredToData(w.kinds, w.nextTicks)
    && BodiesBelow(w.kinds)
    && OrderedKeys(w.cleanupOrder, w.cleanups)
    && Settled(w.value, w.next, w.resolve)
  }

  /** The module state when the library is loaded: idle, with no streams. */
  function Initial(): (r: World)
    ensures Valid(r) && r.kinds == [] && r.state == Idle && r.toRun == [] && r.nextTicks == []
    ensures Unbanned(r)
  {
    World([], [], [], Idle, [], map[], [], map[], [], [], [], [], map[], 0, 0, [])
  }

  // ---------------------------------------------------------------------------
  // Reads (lib/index.ts:198-205 for data, 244-250 for computations: the same code).

  /** A stream accessor called with no argument. */
  function Read(w: World, h: Handle): (r: (Value, World))
    requires Valid(w) && h < |w.kinds| && (w.active != [] ==> h < w.active[0])
    ensures Valid(r.1) && r.1 == w.(dependents := r.1.dependents)
    ensures w.active == [] ==> r.0 == w.value[h] && r.1 == w
    ensures w.active != [] ==> r.0 == w.next[h]
    ensures forall k: Handle, y: Handle :: HasEdge(r.1.dependents, k, y) <==>
      HasEdge(w.dependents, k, y) || (w.active != [] && k == h && y == w.active[0])
  {
    if w.active != [] then
      var r := (w.next[h], w.(dependents := AddReader(w.dependents, h, w.active[0])));
      AddReaderUpward(w.dependents, |w.kinds|, h, w.active[0]);
      assert ReadersAreComputations(w.kinds, r.1.dependents) by {
        forall k, y | k in r.1.dependents && y in r.1.dependents[k] ensures IsComputationIn(w.kinds, y) {
          assert y in Succ(r.1.dependents, k);
          if y != w.active[0] {
            assert y in Succ(w.dependents, k);
          }
        }
      }
      r
    else
      (w.value[h], w)
  }

  /** `sample(signal)`: the read runs with an empty active stack. */
  function Sample(w: World, h: Handle): (r: (Value, World))
    requires Valid(w) && h < |w.kinds|
    ensures r.0 == w.value[h] && r.1 == w
  {
    var (v, w1) := Read(w.(active := []), h);
    (v, w1.(active := w.active))
  }

  // ---------------------------------------------------------------------------
  // Cleanup registration (lib/index.ts:334-341).

  /** `xet(cleanups, f, () => new Set())`, keeping the Map's key order. */
  function XetCleanups(w: World, f: Handle): (r: (World, seq<CleanupId>))
    requires OrderedKeys(w.cleanupOrder, w.cleanups)
    ensures OrderedKeys(r.0.cleanupOrder, r.0.cleanups)
    ensures r.0 == w.(cleanups := r.0.cleanups, cleanupOrder := r.0.cleanupOrder)
    ensures f in r.0.cleanups && r.0.cleanups[f] == r.1
    ensures f in w.cleanups ==> r.0 == w
    ensures f !in w.cleanups ==> r.1 == [] && r.0.cleanups == w.cleanups[f := []] && r.0.cleanupOrder == w.cleanupOrder + [f]
  {
    var (m, ids) := Xet(w.cleanups, f, EmptySet);
    (w.(cleanups := m, cleanupOrder := if f in w.cleanups then w.cleanupOrder else w.cleanupOrder + [f]), ids)
  }

  /** Adds callback id to f's cleanup set. */
  function Register(w: World, f: Handle, id: CleanupId): (r: World)
    requires Valid(w)
    ensures Valid(r) && r == w.(cleanups := r.cleanups, cleanupOrder := r.cleanupOrder)
    ensures f in r.cleanups && forall c :: c in r.cleanups[f] <==> c == id || (f in w.cleanups && c in w.cleanups[f])
    ensures forall k | k != f :: (k in r.cleanups <==> k in w.cleanups) && (k in w.cleanups ==> r.cleanups[k] == w.cleanups[k])
  {
    var (w1, ids) := XetCleanups(w, f);
    w1.(cleanups := w1.cleanups[f := Insert(ids, id)])
  }

  /** `cleanup(f)`: registers on the running computation, or fails outside one. */
  function Cleanup(w: World, id: CleanupId): (r: Result<World>)
    requires Valid(w)
    ensures r.Err? <==> w.active == []
    ensures r.Err? ==> r.error == CleanupWithoutComputationContext
    ensures r.Ok? ==> Valid(r.value) && w.active[0] in r.value.cleanups && id in r.value.cleanups[w.active[0]]
    ensures r.Ok? ==> forall k | k != w.active[0] :: (k in r.value.cleanups <==> k in w.cleanups) && (k in w.cleanups ==> r.value.cleanups[k] == w.cleanups[k])
  {
    if w.active != [] then Ok(Register(w, w.active[0], id))
    else Err(CleanupWithoutComputationContext)
  }

  // ---------------------------------------------------------------------------
  // Running a body.

  /** What one call of a body returns when run in a computation: the pending
      value of a tracked stream, the committed value of a sampled one, and
      `undefined` for `cleanup`. */
  function Seen(value: seq<Value>, next: seq<Value>, s: Step): Value
    requires |value| == |next| && (!s.OnCleanup? ==> s.src < |value|)
  {
    match s
    case Track(h) => next[h]
    case Untracked(h) => value[h]
    case OnCleanup(_) => Undefined
  }

  function Observed(value: seq<Value>, next: seq<Value>, steps: seq<Step>): (r: seq<Value>)
    requires |value| == |next| && forall i | 0 <= i < |steps| :: !steps[i].OnCleanup? ==> steps[i].src < |value|
    ensures |r| == |steps|
  {
    if steps == [] then [] else [Seen(value, next, steps[0])] + Observed(value, next, steps[1..])
  }

  /** The values a body sees, one call at a time. */
  lemma ObservedStep(value: seq<Value>, next: seq<Value>, steps: seq<Step>, vals: seq<Value>)
    requires |value| == |next| && steps != [] && StepsBelow(steps, |value|)
    ensures vals + [Seen(value, next, steps[0])] + Observed(value, next, steps[1..]) == vals + Observed(value, next, steps)
  {
    var rest := Observed(value, next, steps[1..]);
    assert vals + [Seen(value, next, steps[0])] + rest == vals + ([Seen(value, next, steps[0])] + rest);
  }

  /** One call of the body of active[0]. */
  function RunStep(w: World, s: Step): (r: (Value, World))
    requires Valid(w) && w.active != [] && (!s.OnCleanup? ==> s.src < w.active[0])
    ensures Valid(r.1)
    ensures r.1 == w.(dependents := r.1.dependents, cleanups := r.1.cleanups, cleanupOrder := r.1.cleanupOrder)
    ensures r.0 == Seen(w.value, w.next, s)
  {
    match s
    case Track(h) => Read(w, h)
    case Untracked(h) => Sample(w, h)
    case OnCleanup(id) => (Undefined, Register(w, w.active[0], id))
  }

  /** One call records its own read edge and its own cleanup callback, and
      touches no other computation's cleanups. */
  lemma RunStepRecords(w: World, s: Step)
    requires Valid(w) && w.active != [] && (!s.OnCleanup? ==> s.src < w.active[0])
    ensures var r := RunStep(w, s).1;
      && (forall k: Handle, y: Handle :: HasEdge(r.dependents, k, y) <==> HasEdge(w.dependents, k, y) || (k, y) in StepEdge(s, w.active[0]))
      && (forall c :: c in CleanupsAt(r.cleanups, w.active[0]) <==> c in StepRegistered(s) || c in CleanupsAt(w.cleanups, w.active[0]))
      && SameCleanupsBut(w.cleanups, r.cleanups, w.active[0])
  {
    match s
    case Track(h) =>
      assert StepEdge(s, w.active[0]) == {(h, w.active[0])} && StepRegistered(s) == {};
    case Untracked(h) =>
      assert StepEdge(s, w.active[0]) == {} && StepRegistered(s) == {};
    case OnCleanup(id) =>
      assert StepEdge(s, w.active[0]) == {} && StepRegistered(s) == {id};
  }

  /** The calls of a body, in order, with active[0] the running computation. */
  function RunSteps(w: World, steps: seq<Step>, vals: seq<Value>): (r: (World, seq<Value>))
    requires Valid(w) && w.active != [] && StepsBelow(steps, w.active[0])
    ensures Valid(r.0)
    ensures r.0 == w.(dependents := r.0.dependents, cleanups := r.0.cleanups, cleanupOrder := r.0.cleanupOrder)
    ensures r.1 == vals + Observed(w.value, w.next, steps)
    ensures forall k: Handle, y: Handle :: HasEdge(r.0.dependents, k, y) <==> HasEdge(w.dependents, k, y) || (k, y) in TrackedEdges(steps, w.active[0])
    ensures forall c :: c in CleanupsAt(r.0.cleanups, w.active[0]) <==> c in Registered(steps) || c in CleanupsAt(w.cleanups, w.active[0])
    ensures SameCleanupsBut(w.cleanups, r.0.cleanups, w.active[0])
    decreases |steps|
  {
    if steps == [] then (w, vals)
    else
      var (v, w1) := RunStep(w, steps[0]);
      RunStepRecords(w, steps[0]);
      assert StepsBelow(steps[1..], w.active[0]);
      var r := RunSteps(w1, steps[1..], vals + [v]);
      ObservedStep(w.value, w.next, steps, vals);
      r
  }

  /** `cleanupChildren(stream)` (lib/index.ts:139-156). */
  function CleanupChildren(w: World, f: Handle): (r: World)
    ensures r == w.(children := r.children, doNotReCompute := r.doNotReCompute)
    ensures forall x :: x in r.doNotReCompute <==> x in w.doNotReCompute || (f in w.children && x in w.children[f])
    ensures f in r.children && forall k | k in w.children :: k in r.children && r.children[k] == w.children[k]
    ensures ChildrenEmpty(w) ==> ChildrenEmpty(r) && r.doNotReCompute == w.doNotReCompute
  {
    var (ch, xs) := Xet(w.children, f, EmptySet);
    w.(children := ch, doNotReCompute := InsertAll(w.doNotReCompute, xs))
  }

  /** `cleanupChildren(stream)` (a sync computation only: a generator's
      `compute` does not call it), then `active.unshift(stream); fn(...); active.shift()`:
      the body's tracked calls run with f on top of the active stack, and the
      stack is balanced afterwards. */
  function Bracket(w: World, f: Handle): (r: (World, seq<Value>))
    requires Valid(w) && IsComputation(w, f)
    ensures Valid(r.0) && r.0.kinds == w.kinds && r.0.active == w.active
    ensures r.0 == w.(dependents := r.0.dependents, cleanups := r.0.cleanups, cleanupOrder := r.0.cleanupOrder,
      doNotReCompute := r.0.doNotReCompute, children := r.0.children)
    ensures r.1 == Observed(w.value, w.next, StepsOf(w.kinds[f]))
    ensures forall k: Handle, y: Handle :: HasEdge(r.0.dependents, k, y) <==> HasEdge(w.dependents, k, y) || (k, y) in TrackedEdges(StepsOf(w.kinds[f]), f)
    ensures forall c :: c in CleanupsAt(r.0.cleanups, f) <==> c in Registered(StepsOf(w.kinds[f])) || c in CleanupsAt(w.cleanups, f)
    ensures SameCleanupsBut(w.cleanups, r.0.cleanups, f)
    ensures ChildrenEmpty(w) ==> ChildrenEmpty(r.0) && r.0.doNotReCompute == w.doNotReCompute
    ensures w.kinds[f].Generator? ==> r.0.children == w.children && r.0.doNotReCompute == w.doNotReCompute
  {
    var w1 := if w.kinds[f].Sync? then CleanupChildren(w, f) else w;
    var w2 := w1.(active := [f] + w1.active);
    var (w3, vals) := RunSteps(w2, StepsOf(w.kinds[f]), []);
    (w3.(active := w3.active[1..]), vals)
  }

  /** `stream.compute()` of a sync computation (lib/index.ts:223-237). For a
      generator only its tracked reads are modelled, with the computation on
      top of the active stack; its result, even when it completes without
      suspending (lib/index.ts:303-304), is not. */
  function Compute(w: World, f: Handle): (r: World)
    requires Valid(w) && IsComputation(w, f)
    ensures Valid(r) && r.kinds == w.kinds && r.active == w.active
    ensures r == w.(value := r.value, next := r.next, resolve := r.resolve, dependents := r.dependents,
      cleanups := r.cleanups, cleanupOrder := r.cleanupOrder, doNotReCompute := r.doNotReCompute, children := r.children)
    ensures forall h | 0 <= h < |w.kinds| && h != f :: r.value[h] == w.value[h] && r.next[h] == w.next[h]
    ensures w.kinds[f].Sync? ==>
      r.next[f] == w.kinds[f].body.fn(w.value[f], Observed(w.value, w.next, w.kinds[f].body.steps))
    ensures w.kinds[f].Sync? && w.state == Idle ==> r.value[f] == r.next[f] && r.resolve == w.resolve
    ensures w.kinds[f].Sync? && w.state != Idle ==> r.value[f] == w.value[f] && r.resolve == Insert(w.resolve, f)
    ensures w.kinds[f].Generator? ==> r.value == w.value && r.next == w.next && r.resolve == w.resolve
    ensures w.state != Idle ==> r.value == w.value
    ensures w.resolve <= r.resolve
    ensures forall k: Handle, y: Handle :: HasEdge(r.dependents, k, y) <==> HasEdge(w.dependents, k, y) || (k, y) in TrackedEdges(StepsOf(w.kinds[f]), f)
    ensures forall c :: c in CleanupsAt(r.cleanups, f) <==> c in Registered(StepsOf(w.kinds[f])) || c in CleanupsAt(w.cleanups, f)
    ensures SameCleanupsBut(w.cleanups, r.cleanups, f)
    ensures ChildrenEmpty(w) ==> ChildrenEmpty(r) && r.doNotReCompute == w.doNotReCompute
  {
    var (w4, vals) := Bracket(w, f);
    if w.kinds[f].Sync? then Publish(w4, f, w.kinds[f].body.fn(w4.value[f], vals))
    else w4
  }

  /** `stream.next = ...`, then `stream.value = stream.next` when idle and
      `streamsToResolve.add(stream)` otherwise. */
  function Publish(w: World, f: Handle, nx: Value): (r: World)
    requires Valid(w) && IsComputation(w, f)
    ensures Valid(r)
    ensures r == if w.state == Idle then w.(next := w.next[f := nx], value := w.value[f := nx])
      else w.(next := w.next[f := nx], resolve := Insert(w.resolve, f))
  {
    if w.state == Idle then w.(next := w.next[f := nx], value := w.value[f := nx])
    else w.(next := w.next[f := nx], resolve := Insert(w.resolve, f))
  }

  // ---------------------------------------------------------------------------
  // Creating streams (lib/index.ts:158-165, 219-240).

  /** A new stream object with kind k at handle |w.kinds|. */
  function Extend(w: World, k: Kind, v: Value): (r: World)
    requires Valid(w) && StepsBelow(StepsOf(k), |w.kinds|)
    ensures Valid(r)
    ensures r == w.(kinds := w.kinds + [k], value := w.value + [v], next := w.next + [v])
  {
    var r := w.(kinds := w.kinds + [k], value := w.value + [v], next := w.next + [v]);
    ExtendValid(w, k, v);
    r
  }

  lemma ExtendValid(w: World, k: Kind, v: Value)
    requires Valid(w) && StepsBelow(StepsOf(k), |w.kinds|)
    ensures Valid(w.(kinds := w.kinds + [k], value := w.value + [v], next := w.next + [v]))
  {
    var r := w.(kinds := w.kinds + [k], value := w.value + [v], next := w.next + [v]);
    var n := |w.kinds|;
    forall x: Handle | x < n ensures IsComputationIn(r.kinds, x) == IsComputationIn(w.kinds, x) {
      assert r.kinds[x] == w.kinds[x];
    }
    assert ReadersAreComputations(r.kinds, r.dependents) by {
      forall a, y | a in r.dependents && y in r.dependents[a] ensures IsComputationIn(r.kinds, y) {
        assert IsComputationIn(w.kinds, y);
      }
    }
    assert AllComputations(r.kinds, r.toRun) by {
      forall x | x in r.toRun ensures IsComputationIn(r.kinds, x) {
        assert IsComputationIn(w.kinds, x);
      }
    }
    assert StackOfComputations(r.kinds, r.active) by {
      forall i | 0 <= i < |r.active| ensures IsComputationIn(r.kinds, r.active[i]) {
        assert IsComputationIn(w.kinds, r.active[i]);
      }
    }
    assert DeferredToData(r.kinds, r.nextTicks) by {
      forall i | 0 <= i < |r.nextTicks| ensures r.kinds[r.nextTicks[i].stream].Data? {
        assert r.kinds[r.nextTicks[i].stream] == w.kinds[r.nextTicks[i].stream];
      }
    }
    assert BodiesBelow(r.kinds) by {
      forall f | 0 <= f < |r.kinds| ensures StepsBelow(StepsOf(r.kinds[f]), f) {
        if f < n {
          assert r.kinds[f] == w.kinds[f];
        }
      }
    }
    assert Settled(r.value, r.next, r.resolve) by {
      forall x | 0 <= x < |r.value| && x !in r.resolve ensures r.value[x] == r.next[x] {
        if x < n {
          assert r.value[x] == w.value[x] && r.next[x] == w.next[x];
        }
      }
    }
  }

  lemma ObservedExtend(value: seq<Value>, next: seq<Value>, v: Value, steps: seq<Step>)
    requires |value| == |next| && StepsBelow(steps, |value|)
    ensures Observed(value + [v], next + [v], steps) == Observed(value, next, steps)
  {
    if steps != [] {
      assert StepsBelow(steps[1..], |value|);
      ObservedExtend(value, next, v, steps[1..]);
    }
  }

  /** `data(value)`: a data stream whose value and pending value are both value. */
  function NewData(w: World, v: Value): (r: (Handle, World))
    requires Valid(w)
    ensures Valid(r.1) && r.0 == |w.kinds| && IsData(r.1, r.0)
    ensures r.1 == w.(kinds := w.kinds + [Data], value := w.value + [v], next := w.next + [v])
  {
    (|w.kinds|, Extend(w, Data, v))
  }

  /** `computation(fn)`: a sync computation, computed once right away. That first
      run is not counted in `stats`. */
  function NewComputation(w: World, body: Body): (r: (Handle, World))
    requires Valid(w) && StepsBelow(body.steps, |w.kinds|)
    ensures Valid(r.1) && r.0 == |w.kinds| && r.1.kinds == w.kinds + [Sync(body)]
    ensures forall h | 0 <= h < |w.kinds| :: r.1.value[h] == w.value[h] && r.1.next[h] == w.next[h]
    ensures forall k: Handle, y: Handle :: HasEdge(r.1.dependents, k, y) <==> HasEdge(w.dependents, k, y) || (k, y) in TrackedEdges(body.steps, r.0)
    ensures r.1.state == w.state && r.1.toRun == w.toRun && r.1.nextTicks == w.nextTicks && r.1.active == w.active
    ensures r.1.ticks == w.ticks && r.1.evaluated == w.evaluated
    ensures Unbanned(w) ==> Unbanned(r.1)
  {
    var f := |w.kinds|;
    (f, Compute(Extend(w, Sync(body), Undefined), f))
  }

  /** The first run of a new computation sees the values the existing streams
      had, starting from `undefined`; idle, its result is committed at once,
      otherwise it waits for the commit of the running tick. */
  lemma NewComputationFirstRun(w: World, body: Body)
    requires Valid(w) && StepsBelow(body.steps, |w.kinds|)
    ensures var (f, r) := NewComputation(w, body);
      && r.next[f] == body.fn(Undefined, Observed(w.value, w.next, body.steps))
      && (w.state == Idle ==> r.value[f] == r.next[f] && r.resolve == w.resolve)
      && (w.state != Idle ==> r.value[f] == Undefined && r.resolve == Insert(w.resolve, f))
  {
    ObservedExtend(w.value, w.next, Undefined, body.steps);
  }

  /** `generator(fn)`, as far as the model follows it: the generator's tracked
      reads are recorded. The model never sets its `next` nor adds it to
      `streamsToResolve`, not even when it completes without suspending. */
  function NewGenerator(w: World, steps: seq<Step>): (r: (Handle, World))
    requires Valid(w) && StepsBelow(steps, |w.kinds|)
    ensures Valid(r.1) && r.0 == |w.kinds| && r.1.kinds == w.kinds + [Generator(steps)]
    ensures r.1.value == w.value + [Undefined] && r.1.next == w.next + [Undefined] && r.1.resolve == w.resolve
    ensures forall k: Handle, y: Handle :: HasEdge(r.1.dependents, k, y) <==> HasEdge(w.dependents, k, y) || (k, y) in TrackedEdges(steps, r.0)
    ensures Unbanned(w) ==> Unbanned(r.1)
  {
    var f := |w.kinds|;
    (f, Compute(Extend(w, Generator(steps), Undefined), f))
  }

  // ---------------------------------------------------------------------------
  // Flood fill (lib/index.ts:119-137).

  /** `computeDependents(s)` on the world. */
  function PropagateFrom(w: World, s: Handle): (r: World)
    requires Valid(w)
    ensures Valid(r) && r == w.(dependents := r.dependents, toRun := r.toRun)
    ensures w.toRun <= r.toRun
    ensures forall c :: c in r.toRun <==> c in w.toRun || Reaches(w.dependents, Generators(w), s, c)
    ensures Succ(r.dependents, s) == Filter(Succ(w.dependents, s), Generators(w))
    ensures forall k: Handle | k != s :: Succ(r.dependents, k) == Succ(w.dependents, k)
  {
    var (g, t) := ComputeDependents(w.dependents, Generators(w), |w.kinds|, s, w.toRun);
    ComputeDependentsFacts(w.dependents, Generators(w), |w.kinds|, s, w.toRun);
    var r := w.(dependents := g, toRun := t);
    assert ReadersAreComputations(w.kinds, g) by {
      forall k, y | k in g && y in g[k] ensures IsComputationIn(w.kinds, y) {
        assert y in Succ(g, k);
        assert y in Succ(w.dependents, k);
      }
    }
    assert AllComputations(w.kinds, t) by {
      forall c | c in t ensures IsComputationIn(w.kinds, c) {
        if c !in w.toRun {
          var k := ReachedIsReader(w.dependents, Generators(w), s, c);
        }
      }
    }
    r
  }

  // ---------------------------------------------------------------------------
  // tick (lib/index.ts:354-395).

  /** Runs and deletes every cleanup callback of f, in set order. */
  function RunCleanups(w: World, f: Handle): (r: World)
    requires Valid(w)
    ensures Valid(r) && r == w.(cleanups := r.cleanups, cleanupOrder := r.cleanupOrder, called := r.called)
    ensures f in r.cleanups && r.cleanups[f] == []
    ensures r.called == w.called + CleanupsAt(w.cleanups, f)
    ensures SameCleanupsBut(w.cleanups, r.cleanups, f)
  {
    var (w1, ids) := XetCleanups(w, f);
    w1.(called := w1.called + ids, cleanups := w1.cleanups[f := []])
  }

  /** One iteration of tick's loop over the snapshot. */
  function RunItem(w: World, f: Handle): (r: World)
    requires Valid(w) && IsComputation(w, f)
    ensures Valid(r) && r.kinds == w.kinds && r.active == w.active && r.state == w.state
    ensures r.toRun == w.toRun && r.nextTicks == w.nextTicks && r.ticks == w.ticks
    ensures r.called == w.called + CleanupsAt(w.cleanups, f)
    ensures SameCleanupsBut(w.cleanups, r.cleanups, f)
    ensures forall h | 0 <= h < |w.kinds| && h != f :: r.value[h] == w.value[h] && r.next[h] == w.next[h]
    ensures w.state != Idle ==> r.value == w.value
    ensures w.resolve <= r.resolve
    ensures f !in w.doNotReCompute ==> r.evaluated == w.evaluated + 1
    ensures f !in w.doNotReCompute && ChildrenEmpty(w) ==> ChildrenEmpty(r) && r.doNotReCompute == w.doNotReCompute
    ensures f !in w.doNotReCompute && w.state != Idle && w.kinds[f].Sync? ==> f in r.resolve
    ensures f !in w.doNotReCompute && w.kinds[f].Sync? ==>
      r.next[f] == w.kinds[f].body.fn(w.value[f], Observed(w.value, w.next, w.kinds[f].body.steps))
    ensures f in w.doNotReCompute ==>
      r.evaluated == w.evaluated && r.next == w.next && r.resolve == w.resolve && r.doNotReCompute == Delete(w.doNotReCompute, f)
  {
    var w1 := RunCleanups(w, f);
    if f !in w1.doNotReCompute then
      var w2 := Compute(w1, f);
      w2.(evaluated := w2.evaluated + 1)
    else
      w1.(doNotReCompute := Delete(w1.doNotReCompute, f))
  }

  /** tick's loop over the snapshot: `for (let f of items) { ... }`. */
  function RunItems(w: World, items: seq<Handle>): (r: World)
    requires Valid(w) && AllComputations(w.kinds, items)
    ensures Valid(r) && r.kinds == w.kinds && r.active == w.active && r.state == w.state
    ensures r.toRun == w.toRun && r.nextTicks == w.nextTicks && r.ticks == w.ticks
    ensures Unbanned(w) ==> Unbanned(r)
    decreases |items|
  {
    if items == [] then w
    else
      var w1 := RunItem(w, items[0]);
      assert AllComputations(w1.kinds, items[1..]);
      RunItems(w1, items[1..])
  }

  /** Streams outside the snapshot keep their values; while propagating no
      committed value changes at all; `streamsToResolve` only grows. */
  lemma {:induction false} RunItemsUntouched(w: World, items: seq<Handle>)
    requires Valid(w) && AllComputations(w.kinds, items)
    ensures var r := RunItems(w, items);
      && (forall h | 0 <= h < |w.kinds| && h !in items :: r.value[h] == w.value[h] && r.next[h] == w.next[h])
      && (w.state != Idle ==> r.value == w.value)
      && w.resolve <= r.resolve
    decreases |items|
  {
    if items != [] {
      var w1 := RunItem(w, items[0]);
      assert AllComputations(w1.kinds, items[1..]);
      RunItemsUntouched(w1, items[1..]);
      var r := RunItems(w1, items[1..]);
      assert RunItems(w, items) == r;
      TailIn(items);
      forall h | 0 <= h < |w.kinds| && h !in items ensures r.value[h] == w.value[h] && r.next[h] == w.next[h] {
        assert h != items[0] && h !in items[1..];
      }
    }
  }

  /** Every snapshot computation's cleanups run, in snapshot order. */
  lemma {:induction false} RunItemsCleanups(w: World, items: seq<Handle>)
    requires Valid(w) && AllComputations(w.kinds, items) && NoDup(items)
    ensures RunItems(w, items).called == w.called + AllCleanups(w.cleanups, items)
    decreases |items|
  {
    if items != [] {
      var w1 := RunItem(w, items[0]);
      assert AllComputations(w1.kinds, items[1..]);
      NoDupTail(items);
      RunItemsCleanups(w1, items[1..]);
      AllCleanupsAgree(w.cleanups, w1.cleanups, items[0], items[1..]);
      var r := RunItems(w1, items[1..]);
      assert RunItems(w, items) == r;
      assert r.called == w1.called + AllCleanups(w.cleanups, items[1..]);
      assert w1.called == w.called + CleanupsAt(w.cleanups, items[0]);
      assert AllCleanups(w.cleanups, items) == CleanupsAt(w.cleanups, items[0]) + AllCleanups(w.cleanups, items[1..]);
      ConcatAssoc(w.called, CleanupsAt(w.cleanups, items[0]), AllCleanups(w.cleanups, items[1..]));
    }
  }

  /** With nothing banned from recomputation, each snapshot item is computed
      exactly once and counted once. */
  lemma {:induction false} RunItemsEvaluated(w: World, items: seq<Handle>)
    requires Valid(w) && AllComputations(w.kinds, items) && ChildrenEmpty(w) && w.doNotReCompute == []
    ensures var r := RunItems(w, items);
      && ChildrenEmpty(r) && r.doNotReCompute == [] && r.evaluated == w.evaluated + |items|
      && (w.state != Idle ==> forall x | x in items && w.kinds[x].Sync? :: x in r.resolve)
    decreases |items|
  {
    if items != [] {
      var w1 := RunItem(w, items[0]);
      assert AllComputations(w1.kinds, items[1..]);
      RunItemsEvaluated(w1, items[1..]);
      RunItemsUntouched(w1, items[1..]);
    }
  }

  /** Running a snapshot is running a prefix of it, then the rest. */
  lemma {:induction false} RunItemsSplit(w: World, a: seq<Handle>, b: seq<Handle>)
    requires Valid(w) && AllComputations(w.kinds, a + b)
    ensures AllComputations(w.kinds, a) && AllComputations(w.kinds, b)
    ensures RunItems(w, a + b) == RunItems(RunItems(w, a), b)
    decreases |a|
  {
    if a == [] {
      assert a + b == b;
    } else {
      AppendTail(a, b);
      var w1 := RunItem(w, a[0]);
      assert AllComputations(w1.kinds, a[1..] + b);
      RunItemsSplit(w1, a[1..], b);
      assert RunItems(w, a + b) == RunItems(w1, a[1..] + b);
    }
  }

  /** With nothing banned, each snapshot computation ends the loop holding
      what its body computed when its turn came: on the pending values the
      computations before it in the snapshot left behind. */
  lemma RunItemsComputes(w: World, items: seq<Handle>, i: nat)
    requires Valid(w) && AllComputations(w.kinds, items) && NoDup(items) && i < |items|
    requires ChildrenEmpty(w) && w.doNotReCompute == [] && IsComputationIn(w.kinds, items[i]) && w.kinds[items[i]].Sync?
    ensures AllComputations(w.kinds, items[..i])
    ensures RunItems(w, items).next[items[i]] == w.kinds[items[i]].body.fn(RunItems(w, items[..i]).value[items[i]],
      Observed(RunItems(w, items[..i]).value, RunItems(w, items[..i]).next, w.kinds[items[i]].body.steps))
  {
    assert items == items[..i] + items[i..];
    RunItemsSplit(w, items[..i], items[i..]);
    var before := RunItems(w, items[..i]);
    RunItemsEvaluated(w, items[..i]);
    var x := items[i];
    var w2 := RunItem(before, x);
    SliceAt(items, i);
    assert AllComputations(w2.kinds, items[i + 1..]);
    assert RunItems(before, items[i..]) == RunItems(w2, items[i + 1..]);
    RunItemsUntouched(w2, items[i + 1..]);
    assert x !in items[i + 1..] by {
      forall j | i + 1 <= j < |items| ensures items[j] != x { assert items[i] != items[j]; }
    }
  }

  /** What a tick from idle commits, when nothing is banned: each sync
      computation of the snapshot gets its body's result, on the committed
      values from before the tick and on the pending values of the snapshot
      computations that ran before it. */
  lemma TickComputes(w: World, i: nat)
    requires Valid(w) && w.state == Idle && ChildrenEmpty(w) && w.doNotReCompute == []
    requires i < |w.toRun| && IsComputationIn(w.kinds, w.toRun[i]) && w.kinds[w.toRun[i]].Sync?
    ensures AllComputations(w.kinds, w.toRun[..i])
    ensures TickOnce(w).value[w.toRun[i]] == w.kinds[w.toRun[i]].body.fn(w.value[w.toRun[i]],
      Observed(w.value, RunItems(Begin(w), w.toRun[..i]).next, w.kinds[w.toRun[i]].body.steps))
  {
    var w0 := Begin(w);
    RunItemsComputes(w0, w.toRun, i);
    var before := RunItems(w0, w.toRun[..i]);
    RunItemsUntouched(w0, w.toRun[..i]);
    assert before.value == w.value;
    var w1 := RunItems(w0, w.toRun);
    assert TickOnce(w) == Settle(w1);
    assert TickOnce(w).value[w.toRun[i]] == w1.next[w.toRun[i]];
  }

  /** tick up to `state = 'idle'` (lib/index.ts:355-385). */
  function TickOnce(w: World): (r: World)
    requires Valid(w)
    ensures Valid(r) && r.kinds == w.kinds && r.nextTicks == w.nextTicks && r.active == w.active
    ensures w.state != Idle ==> r == w
    ensures w.state == Idle ==> r.state == Idle && r.ticks == w.ticks + 1 && r.toRun == [] && r.resolve == []
    ensures Unbanned(w) ==> Unbanned(r)
  {
    if w.state != Idle then w
    else Settle(RunItems(Begin(w), w.toRun))
  }

  /** `stats.ticks++; state = 'propagating'; let items = [...toRun]; toRun.clear()` */
  function Begin(w: World): (r: World)
    requires Valid(w)
    ensures Valid(r) && r == w.(ticks := w.ticks + 1, state := Propagating, toRun := [])
  {
    w.(ticks := w.ticks + 1, state := Propagating, toRun := [])
  }

  /** The commit loop, `streamsToResolve.clear()` and `state = 'idle'`. */
  function Settle(w: World): (r: World)
    requires Valid(w)
    ensures Valid(r) && r == w.(value := r.value, resolve := [], state := Idle)
    ensures forall h | 0 <= h < |w.kinds| :: r.value[h] == w.next[h]
  {
    var r := w.(value := CommitValues(w.value, w.next, w.resolve), resolve := [], state := Idle);
    assert Settled(r.value, r.next, r.resolve);
    r
  }

  /** After a tick every stream has settled: its committed value is its pending one. */
  lemma TickSettles(w: World)
    requires Valid(w) && w.state == Idle
    ensures forall h | 0 <= h < |w.kinds| :: TickOnce(w).value[h] == TickOnce(w).next[h]
  {
  }

  /** A data stream commits the pending value it had when the tick began, and
      no committed value changes before the snapshot has finished running. */
  lemma TickCommitsData(w: World)
    requires Valid(w) && w.state == Idle
    ensures RunItems(Begin(w), w.toRun).value == w.value
    ensures forall h: Handle | IsData(w, h) :: TickOnce(w).value[h] == w.next[h] && TickOnce(w).next[h] == w.next[h]
  {
    var w0 := Begin(w);
    var w1 := RunItems(w0, w.toRun);
    RunItemsUntouched(w0, w.toRun);
    assert TickOnce(w) == Settle(w1);
    forall h: Handle | IsData(w, h) ensures TickOnce(w).value[h] == w.next[h] && TickOnce(w).next[h] == w.next[h] {
      assert h !in w.toRun;
      assert w1.next[h] == w0.next[h];
    }
  }

  /** Each snapshot computation's cleanups run, in snapshot order. */
  lemma TickRunsCleanups(w: World)
    requires Valid(w) && w.state == Idle
    ensures TickOnce(w).called == w.called + AllCleanups(w.cleanups, w.toRun)
  {
    RunItemsCleanups(Begin(w), w.toRun);
  }

  /** With nothing banned from recomputation (`children` is never written), each
      snapshot computation is evaluated once and counted once. */
  lemma TickEvaluates(w: World)
    requires Valid(w) && w.state == Idle && ChildrenEmpty(w) && w.doNotReCompute == []
    ensures var r := TickOnce(w);
      ChildrenEmpty(r) && r.doNotReCompute == [] && r.evaluated == w.evaluated + |w.toRun|
  {
    RunItemsEvaluated(Begin(w), w.toRun);
  }

  // ---------------------------------------------------------------------------
  // Writes (lib/index.ts:167-197) and the whole tick, which ends by running one
  // deferred write (lib/index.ts:387-394).

  /** `tick()` */
  function Tick(w: World): (r: World)
    requires Valid(w)
    ensures Valid(r) && r.kinds == w.kinds && r.active == w.active
    ensures w.state != Idle ==> r == w
    ensures w.state == Idle ==> r.state == Idle && r.nextTicks == [] && r.toRun == [] && r.resolve == []
    ensures Unbanned(w) ==> Unbanned(r)
    decreases |w.nextTicks|, 0
  {
    if w.state != Idle then w
    else
      var w1 := TickOnce(w);
      if w1.nextTicks == [] then w1
      else
        var (d, w2) := NextTick(w1);
        assert w2.state == Idle && w2.resolve == [];
        Write(w2, d.stream, d.arg).1
  }

  /** `nextTicks.shift()` */
  function NextTick(w: World): (r: (Deferred, World))
    requires Valid(w) && w.nextTicks != []
    ensures Valid(r.1) && IsData(r.1, r.0.stream) && |r.1.nextTicks| < |w.nextTicks|
    ensures r == (w.nextTicks[0], w.(nextTicks := w.nextTicks[1..]))
    ensures Unbanned(w) ==> Unbanned(r.1)
  {
    (w.nextTicks[0], w.(nextTicks := w.nextTicks[1..]))
  }

  /** `stream.next = nextVal; streamsToResolve.add(stream)` */
  function Stage(w: World, h: Handle, nv: Value): (r: World)
    requires Valid(w) && IsData(w, h)
    ensures Valid(r) && r == w.(next := w.next[h := nv], resolve := Insert(w.resolve, h))
  {
    w.(next := w.next[h := nv], resolve := Insert(w.resolve, h))
  }

  /** A data accessor called with an argument. */
  function Write(w: World, h: Handle, arg: Arg): (r: (Result<Value>, World))
    requires Valid(w) && IsData(w, h)
    ensures Valid(r.1) && r.1.kinds == w.kinds && r.1.active == w.active
    ensures w.state == Propagating ==> r.0 == Ok(w.value[h]) && r.1 == w.(nextTicks := w.nextTicks + [Deferred(h, arg)])
    ensures w.state != Propagating ==> (r.0 == Err(Conflict) <==> h in w.resolve && Apply(arg, w.value[h]) != w.next[h])
    ensures w.state != Propagating && r.0.Err? ==> r.1 == w
    ensures w.state != Propagating && r.0.Ok? ==> r.0.value == Undefined
    ensures w.state == Idle && r.0.Ok? ==> r.1.state == Idle && r.1.nextTicks == [] && r.1.toRun == [] && r.1.resolve == []
    ensures w.state == Frozen ==> r.1.state == Frozen && r.1.ticks == w.ticks && r.1.nextTicks == w.nextTicks && r.1.value == w.value
    ensures Unbanned(w) ==> Unbanned(r.1)
    decreases |w.nextTicks|, 2
  {
    if w.state == Propagating then
      (Ok(w.value[h]), w.(nextTicks := w.nextTicks + [Deferred(h, arg)]))
    else
      var nv := Apply(arg, w.value[h]);
      if h in w.resolve && nv != w.next[h] then (Err(Conflict), w)
      else (Ok(Undefined), Accept(w, h, nv))
  }

  /** A write that does not conflict: stage it, flood its readers, and tick
      when idle. */
  function Accept(w: World, h: Handle, nv: Value): (r: World)
    requires Valid(w) && IsData(w, h) && w.state != Propagating
    ensures Valid(r) && r.kinds == w.kinds && r.active == w.active
    ensures w.state == Idle ==> r.state == Idle && r.nextTicks == [] && r.toRun == [] && r.resolve == []
    ensures w.state == Frozen ==> r.state == Frozen && r.ticks == w.ticks && r.nextTicks == w.nextTicks && r.value == w.value
    ensures Unbanned(w) ==> Unbanned(r)
    decreases |w.nextTicks|, 1
  {
    var w1 := Stage(w, h, nv);
    var w2 := PropagateFrom(w1, h);
    if w2.state == Idle then Tick(w2) else w2
  }

  // ---------------------------------------------------------------------------
  // freeze (lib/index.ts:321-332).

  /** The callback passed to `freeze`: the writes and nested freezes it makes. */
  datatype Callback = Callback(ops: seq<Op>)
  datatype Op = WriteOp(stream: Handle, arg: Arg) | FreezeOp(f: Callback)

  ghost predicate WritesData(kinds: seq<Kind>, f: Callback)
    decreases f, 1
  {
    forall i | 0 <= i < |f.ops| :: OpWritesData(kinds, f.ops[i])
  }

  /** A call of the callback writes a data stream, or freezes a callback that does. */
  ghost predicate OpWritesData(kinds: seq<Kind>, op: Op)
    decreases op, 0
  {
    match op
    case WriteOp(h, _) => h < |kinds| && kinds[h].Data?
    case FreezeOp(g) => WritesData(kinds, g)
  }

  /** `freeze(f)`. An exception thrown by f leaves the state `frozen`: the
      source restores the state only when f returns. */
  function Freeze(w: World, f: Callback): (r: (Result<()>, World))
    requires Valid(w) && WritesData(w.kinds, f)
    ensures Valid(r.1) && r.1.kinds == w.kinds && r.1.active == w.active
    ensures w.state == Propagating ==> r.0 == Err(FreezingWhilePropagating) && r.1 == w
    ensures w.state != Propagating && r.0.Err? ==> r.0.error == Conflict && r.1.state == Frozen
    ensures w.state != Propagating && r.0.Ok? ==> r.1.state == w.state
    ensures w.state == Frozen ==> r.1.ticks == w.ticks && r.1.nextTicks == w.nextTicks && r.1.value == w.value
    ensures w.state == Idle && r.0.Ok? ==> r.1.nextTicks == [] && r.1.toRun == [] && r.1.resolve == []
    ensures Unbanned(w) ==> Unbanned(r.1)
    decreases f, 1, 0
  {
    if w.state == Propagating then (Err(FreezingWhilePropagating), w)
    else
      var (res, w1) := RunOps(w.(state := Frozen), f, 0);
      if res.Err? then (res, w1)
      else (Ok(()), Tick(w1.(state := w.state)))
  }

  /** The body of f from its i-th call on, inside a freeze; the first exception
      ends it. */
  function RunOps(w: World, f: Callback, i: nat): (r: (Result<()>, World))
    requires Valid(w) && w.state == Frozen && WritesData(w.kinds, f) && i <= |f.ops|
    ensures Valid(r.1) && r.1.kinds == w.kinds && r.1.active == w.active && r.1.state == Frozen
    ensures r.1.ticks == w.ticks && r.1.nextTicks == w.nextTicks && r.1.value == w.value
    ensures r.0.Err? ==> r.0.error == Conflict
    ensures Unbanned(w) ==> Unbanned(r.1)
    decreases f, 0, |f.ops| - i
  {
    if i == |f.ops| then (Ok(()), w)
    else
      var (res, w1) := RunOp(w, f.ops[i]);
      if res.Err? then (res, w1) else RunOps(w1, f, i + 1)
  }

  /** One call the callback makes: a write, or a nested freeze. */
  function RunOp(w: World, op: Op): (r: (Result<()>, World))
    requires Valid(w) && w.state == Frozen && OpWritesData(w.kinds, op)
    ensures Valid(r.1) && r.1.kinds == w.kinds && r.1.active == w.active && r.1.state == Frozen
    ensures r.1.ticks == w.ticks && r.1.nextTicks == w.nextTicks && r.1.value == w.value
    ensures r.0.Err? ==> r.0.error == Conflict
    ensures Unbanned(w) ==> Unbanned(r.1)
    decreases op, 2, 0
  {
    match op
    case WriteOp(h, arg) =>
      var (v, w1) := Write(w, h, arg);
      (if v.Ok? then Ok(()) else Err(v.error), w1)
    case FreezeOp(g) => Freeze(w, g)
  }

  // ---------------------------------------------------------------------------
  // root's disposer (lib/index.ts:343-352).

  /** Runs every registered cleanup callback, in Map order, then clears the Map. */
  function Dispose(w: World): (r: World)
    requires Valid(w)
    ensures Valid(r) && r.cleanups == map[] && r == w.(cleanups := r.cleanups, cleanupOrder := r.cleanupOrder, called := r.called)
    ensures r.called == w.called + AllCleanups(w.cleanups, w.cleanupOrder)
  {
    w.(called := w.called + AllCleanups(w.cleanups, w.cleanupOrder), cleanups := map[], cleanupOrder := [])
  }

  // ---------------------------------------------------------------------------
  // What writes, ticks and freezes promise.

  /** A write outside propagation: an updater sees the committed value, never
      the pending one; the stream then awaits the commit with the new pending
      value, and no committed value changes while frozen. */
  lemma WriteFrozen(w: World, h: Handle, arg: Arg)
    requires Valid(w) && IsData(w, h) && w.state == Frozen
    requires !(h in w.resolve && Apply(arg, w.value[h]) != w.next[h])
    ensures var r := Write(w, h, arg).1;
      && r.next[h] == Apply(arg, w.value[h]) && h in r.resolve && w.resolve <= r.resolve
      && r.value == w.value
      && (forall x | 0 <= x < |w.kinds| && x != h :: r.next[x] == w.next[x])
      && w.toRun <= r.toRun
      && (forall c :: c in r.toRun <==> c in w.toRun || Reaches(w.dependents, Generators(w), h, c))
  {
    var nv := Apply(arg, w.value[h]);
    var w1 := Stage(w, h, nv);
    var w2 := PropagateFrom(w1, h);
    assert Write(w, h, arg) == (Ok(Undefined), w2);
  }

  /** A write while idle with no deferred writes pending is committed by the
      tick it starts, together with everything it invalidated. */
  lemma WriteIdle(w: World, h: Handle, arg: Arg)
    requires Valid(w) && IsData(w, h) && w.state == Idle && w.resolve == [] && w.nextTicks == []
    ensures var r := Write(w, h, arg);
      && r.0 == Ok(Undefined)
      && r.1.value[h] == Apply(arg, w.value[h]) && r.1.next[h] == Apply(arg, w.value[h])
      && (forall x | 0 <= x < |w.kinds| :: r.1.value[x] == r.1.next[x])
      && r.1.ticks == w.ticks + 1
  {
    var nv := Apply(arg, w.value[h]);
    var w1 := Stage(w, h, nv);
    var w2 := PropagateFrom(w1, h);
    assert w2.state == Idle && w2.nextTicks == [] && w2.next[h] == nv && IsData(w2, h);
    var t := TickOnce(w2);
    assert Tick(w2) == t;
    assert Write(w, h, arg) == (Ok(Undefined), t);
    TickCommitsData(w2);
    TickSettles(w2);
  }

  /** A tick from idle ticks once, and once more for every deferred write. */
  lemma {:induction false} TickCount(w: World)
    requires Valid(w) && w.state == Idle
    ensures Tick(w).ticks == w.ticks + 1 + |w.nextTicks|
    decreases |w.nextTicks|, 0
  {
    var w1 := TickOnce(w);
    if w1.nextTicks != [] {
      var (d, w2) := NextTick(w1);
      WriteCount(w2, d.stream, d.arg);
    }
  }

  lemma {:induction false} WriteCount(w: World, h: Handle, arg: Arg)
    requires Valid(w) && IsData(w, h) && w.state == Idle && w.resolve == []
    ensures Write(w, h, arg).0.Ok? && Write(w, h, arg).1.ticks == w.ticks + 1 + |w.nextTicks|
    decreases |w.nextTicks|, 1
  {
    var nv := Apply(arg, w.value[h]);
    var w1 := Stage(w, h, nv);
    var w2 := PropagateFrom(w1, h);
    assert Accept(w, h, nv) == Tick(w2);
    TickCount(w2);
  }

  /** `freeze(f)` from idle: every write in f is coalesced into a single tick
      (plus one per write deferred before it). */
  lemma FreezeTicksOnce(w: World, f: Callback)
    requires Valid(w) && WritesData(w.kinds, f) && w.state == Idle
    requires Freeze(w, f).0.Ok?
    ensures Freeze(w, f).1.ticks == w.ticks + 1 + |w.nextTicks|
  {
    var (res, w1) := RunOps(w.(state := Frozen), f, 0);
    TickCount(w1.(state := Idle));
  }

  /** While frozen, a decrement of a stream whose pending value is already its
      committed value minus one writes the same pending value again. */
  lemma DecrementAgain(w: World, h: Handle)
    requires Valid(w) && IsData(w, h) && w.state == Frozen
    requires h in w.resolve ==> w.next[h] == Decrement(w.value[h])
    ensures var r := Write(w, h, Updater(Decrement));
      && r.0.Ok? && h in r.1.resolve && r.1.next[h] == Decrement(w.value[h])
      && r.1.value == w.value && r.1.ticks == w.ticks && r.1.nextTicks == w.nextTicks && r.1.state == Frozen
  {
    WriteFrozen(w, h, Updater(Decrement));
  }

  /** A run of decrements of one stream inside a freeze all succeed and all
      write the same pending value. */
  lemma {:induction false} RunDecrements(w: World, f: Callback, h: Handle, i: nat)
    requires Valid(w) && IsData(w, h) && w.state == Frozen && WritesData(w.kinds, f) && i <= |f.ops|
    requires forall j | i <= j < |f.ops| :: f.ops[j] == WriteOp(h, Updater(Decrement))
    requires h in w.resolve ==> w.next[h] == Decrement(w.value[h])
    ensures var r := RunOps(w, f, i);
      && r.0 == Ok(())
      && (h in w.resolve || i < |f.ops| ==> h in r.1.resolve && r.1.next[h] == Decrement(w.value[h]))
    decreases |f.ops| - i
  {
    if i < |f.ops| {
      var w1 := RunDecrement(w, f, h, i);
      RunDecrements(w1, f, h, i + 1);
      var r := RunOps(w1, f, i + 1);
      assert r.0 == Ok(()) && h in r.1.resolve && r.1.next[h] == Decrement(w.value[h]);
      assert RunOps(w, f, i) == r;
    } else {
      assert RunOps(w, f, i) == (Ok(()), w);
    }
  }

  /** The i-th decrement of such a run, and the world it leaves. */
  lemma RunDecrement(w: World, f: Callback, h: Handle, i: nat) returns (w1: World)
    requires Valid(w) && IsData(w, h) && w.state == Frozen && WritesData(w.kinds, f) && i < |f.ops|
    requires f.ops[i] == WriteOp(h, Updater(Decrement))
    requires h in w.resolve ==> w.next[h] == Decrement(w.value[h])
    ensures Valid(w1) && IsData(w1, h) && w1.state == Frozen && w1.kinds == w.kinds && w1.value == w.value
    ensures h in w1.resolve && w1.next[h] == Decrement(w.value[h])
    ensures RunOps(w, f, i) == RunOps(w1, f, i + 1)
  {
    DecrementAgain(w, h);
    w1 := Write(w, h, Updater(Decrement)).1;
    assert RunOp(w, f.ops[i]) == (Ok(()), w1);
  }

  /** However many `x(x => x - 1)` one freeze makes, each updater reads the
      committed value, so the pending values agree and the stream drops by one
      in the single tick that follows. */
  lemma FreezeDecrements(w: World, f: Callback, h: Handle)
    requires Valid(w) && IsData(w, h) && w.state == Idle && w.resolve == [] && w.nextTicks == []
    requires f.ops != [] && forall j | 0 <= j < |f.ops| :: f.ops[j] == WriteOp(h, Updater(Decrement))
    ensures WritesData(w.kinds, f)
    ensures Freeze(w, f).0 == Ok(()) && Freeze(w, f).1.value[h] == Decrement(w.value[h])
    ensures Freeze(w, f).1.ticks == w.ticks + 1
  {
    RunDecrements(w.(state := Frozen), f, h, 0);
    var w4 := RunOps(w.(state := Frozen), f, 0).1;
    TickCommitsData(w4.(state := Idle));
    FreezeTicksOnce(w, f);
  }

  /** The four-decrement scenario of the freeze tests. */
  lemma FreezeFourDecrements(w: World, h: Handle)
    requires Valid(w) && IsData(w, h) && w.state == Idle && w.resolve == [] && w.nextTicks == []
    ensures var dec := WriteOp(h, Updater(Decrement));
      var r := Freeze(w, Callback([dec, dec, dec, dec]));
      r.0 == Ok(()) && r.1.value[h] == Decrement(w.value[h]) && r.1.ticks == w.ticks + 1
  {
    var dec := WriteOp(h, Updater(Decrement));
    FreezeDecrements(w, Callback([dec, dec, dec, dec]), h);
  }

  /** The disposer calls exactly the registered callbacks and leaves none. */
  lemma DisposeCallsAll(w: World)
    requires Valid(w)
    ensures var r := Dispose(w);
      && r.cleanups == map[] && r.called[..|w.called|] == w.called
      && forall c :: c in r.called[|w.called|..] <==> exists f :: f in w.cleanups && c in w.cleanups[f]
  {
    var r := Dispose(w);
    assert r.called[|w.called|..] == AllCleanups(w.cleanups, w.cleanupOrder);
    AllCleanupsMembers(w.cleanups, w.cleanupOrder);
  }
}
