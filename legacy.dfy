/** The older scheduler of lib/index.js as a state machine over a `World`
    value. Compared with lib/index.ts: a write sets the stream's value at once
    and floods without treating any computation as a leaf; a read always returns
    the committed value; `batch` plays the role of `freeze`; and a tick first
    computes every snapshot item, then runs the commit closures `compute`
    returned. */
module Legacy {
  import opened Common
  import opened Graph

  /** A computation's visitor: the calls it makes, and how it combines what
      those calls returned (it takes no argument). */
  datatype Visitor = Visitor(steps: seq<Step>, fn: seq<Value> -> Value)

  datatype Kind = Data | Comp(visitor: Visitor)

  datatype World = World(
    kinds: seq<Kind>,
    value: seq<Value>,
    next: seq<Value>,                          // a data stream never sets `next`
    toRun: seq<Handle>,
    dependents: Deps,
    cleanupOrder: seq<Handle>,                 // key order of the `cleanups` Map
    cleanups: map<Handle, seq<CleanupId>>,
    active: seq<Handle>,                       // active[0] is the running computation
    propagating: bool,
    batching: bool,
    ticks: nat,                                // `stats.ticks`
    evaluated: nat,                            // `stats.computations.evaluated`
    called: seq<CleanupId>)                    // every cleanup callback invoked, in order

  predicate IsData(w: World, x: Handle)
  {
    x < |w.kinds| && w.kinds[x].Data?
  }

  predicate IsComputationIn(kinds: seq<Kind>, x: Handle)
  {
    x < |kinds| && kinds[x].Comp?
  }

  function StepsOf(k: Kind): seq<Step>
  {
    if k.Comp? then k.visitor.steps else []
  }

  ghost predicate BodiesBelow(kinds: seq<Kind>)
  {
    forall f | 0 <= f < |kinds| :: StepsBelow(StepsOf(kinds[f]), f)
  }

  ghost predicate ReadersAreComputations(kinds: seq<Kind>, g: Deps)
  {
    forall k, y | k in g && y in g[k] :: IsComputationIn(kinds, y)
  }

  ghost predicate AllComputations(kinds: seq<Kind>, xs: seq<Handle>)
  {
    forall x | x in xs :: IsComputationIn(kinds, x)
  }

  ghost predicate StackOfComputations(kinds: seq<Kind>, xs: seq<Handle>)
  {
    forall i | 0 <= i < |xs| :: IsComputationIn(kinds, xs[i])
  }

  /** The invariant every operation keeps. */
  ghost predicate Valid(w: World)
  {
    && |w.value| == |w.kinds| && |w.next| == |w.kinds|
    && Upward(w.dependents, |w.kinds|)
    && ReadersAreComputations(w.kinds, w.dependents)
    && AllComputations(w.kinds, w.toRun) && NoDup(w.toRun)
    && StackOfComputations(w.kinds, w.active)
    && BodiesBelow(w.kinds)
    && OrderedKeys(w.cleanupOrder, w.cleanups)
  }

  /** The module state when the library is loaded. */
  function Initial(): (r: World)
    ensures Valid(r) && r.kinds == [] && !r.propagating && !r.batching
  {
    World([], [], [], [], map[], [], map[], [], false, false, 0, 0, [])
  }

  // ---------------------------------------------------------------------------
  // Reads (lib/index.js:54-61 for data, 86-92 for computations: the same code).

  /** A stream accessor called with no argument: it records the read and
      returns the committed value. */
  function Read(w: World, h: Handle): (r: (Value, World))
    requires Valid(w) && h < |w.kinds| && (w.active != [] ==> h < w.active[0])
    ensures Valid(r.1) && r.1 == w.(dependents := r.1.dependents)
    ensures r.0 == w.value[h]
    ensures w.active == [] ==> r.1 == w
    ensures forall k: Handle, y: Handle :: y in Succ(r.1.dependents, k) <==>
      y in Succ(w.dependents, k) || (w.active != [] && k == h && y == w.active[0])
  {
    if w.active != [] then
      var r := (w.value[h], w.(dependents := AddReader(w.dependents, h, w.active[0])));
      AddReaderUpward(w.dependents, |w.kinds|, h, w.active[0]);
      assert ReadersAreComputations(w.kinds, r.1.dependents) by {
        forall k, y | k in r.1.dependents && y in r.1.dependents[k] ensures IsComputationIn(w.kinds, y) {
          assert y in Succ(r.1.dependents, k);
          if y != w.active[0] {
            assert y in Succ(w.dependents, k);
          }
        }
      }
      r
    else
      (w.value[h], w)
  }

  /** `sample(signal)` (lib/index.js:19-25). */
  function Sample(w: World, h: Handle): (r: (Value, World))
    requires Valid(w) && h < |w.kinds|
    ensures r.0 == w.value[h] && r.1 == w
  {
    var (v, w1) := Read(w.(active := []), h);
    (v, w1.(active := w.active))
  }

  // ---------------------------------------------------------------------------
  // Cleanup registration (lib/index.js:103-110).

  /** Adds callback id to f's cleanup set, creating the set at the end of the
      Map's key order when f has none. */
  function Register(w: World, f: Handle, id: CleanupId): (r: World)
    requires Valid(w)
    ensures Valid(r) && r == w.(cleanups := r.cleanups, cleanupOrder := r.cleanupOrder)
    ensures f in r.cleanups && forall c :: c in r.cleanups[f] <==> c == id || (f in w.cleanups && c in w.cleanups[f])
    ensures SameCleanupsBut(w.cleanups, r.cleanups, f)
  {
    var (m, ids) := Xet(w.cleanups, f, EmptySet);
    var order := if f in w.cleanups then w.cleanupOrder else w.cleanupOrder + [f];
    w.(cleanups := m[f := Insert(ids, id)], cleanupOrder := order)
  }

  /** `cleanup(f)` */
  function Cleanup(w: World, id: CleanupId): (r: Result<World>)
    requires Valid(w)
    ensures r.Err? <==> w.active == []
    ensures r.Err? ==> r.error == CleanupWithoutComputationContext
    ensures r.Ok? ==> Valid(r.value) && w.active[0] in r.value.cleanups && id in r.value.cleanups[w.active[0]]
    ensures r.Ok? ==> SameCleanupsBut(w.cleanups, r.value.cleanups, w.active[0])
  {
    if w.active != [] then Ok(Register(w, w.active[0], id))
    else Err(CleanupWithoutComputationContext)
  }

  // ---------------------------------------------------------------------------
  // Running a visitor.

  /** What one call of a visitor returns: the committed value of the stream it
      reads, tracked or not, and `undefined` for `cleanup`. */
  function Seen(value: seq<Value>, s: Step): Value
    requires !s.OnCleanup? ==> s.src < |value|
  {
    if s.OnCleanup? then Undefined else value[s.src]
  }

  function Observed(value: seq<Value>, steps: seq<Step>): (r: seq<Value>)
    requires forall i | 0 <= i < |steps| :: !steps[i].OnCleanup? ==> steps[i].src < |value|
    ensures |r| == |steps|
  {
    if steps == [] then [] else [Seen(value, steps[0])] + Observed(value, steps[1..])
  }

  /** The values a body sees, one call at a time. */
  lemma ObservedStep(value: seq<Value>, steps: seq<Step>, vals: seq<Value>)
    requires steps != [] && StepsBelow(steps, |value|)
    ensures vals + [Seen(value, steps[0])] + Observed(value, steps[1..]) == vals + Observed(value, steps)
  {
    var rest := Observed(value, steps[1..]);
    assert vals + [Seen(value, steps[0])] + rest == vals + ([Seen(value, steps[0])] + rest);
  }

  /** One call of the visitor of active[0]. */
  function RunStep(w: World, s: Step): (r: (Value, World))
    requires Valid(w) && w.active != [] && (!s.OnCleanup? ==> s.src < w.active[0])
    ensures Valid(r.1)
    ensures r.1 == w.(dependents := r.1.dependents, cleanups := r.1.cleanups, cleanupOrder := r.1.cleanupOrder)
    ensures r.0 == Seen(w.value, s)
  {
    match s
    case Track(h) => Read(w, h)
    case Untracked(h) => Sample(w, h)
    case OnCleanup(id) => (Undefined, Register(w, w.active[0], id))
  }

  /** One call records its own read edge and its own cleanup callback, and
      touches no other computation's cleanups. */
  lemma RunStepRecords(w: World, s: Step)
    requires Valid(w) && w.active != [] && (!s.OnCleanup? ==> s.src < w.active[0])
    ensures var r := RunStep(w, s).1;
      && (forall k: Handle, y: Handle :: y in Succ(r.dependents, k) <==> y in Succ(w.dependents, k) || (k, y) in StepEdge(s, w.active[0]))
      && (forall c :: c in CleanupsAt(r.cleanups, w.active[0]) <==> c in StepRegistered(s) || c in CleanupsAt(w.cleanups, w.active[0]))
      && SameCleanupsBut(w.cleanups, r.cleanups, w.active[0])
  {
    match s
    case Track(h) =>
      assert StepEdge(s, w.active[0]) == {(h, w.active[0])} && StepRegistered(s) == {};
    case Untracked(h) =>
      assert StepEdge(s, w.active[0]) == {} && StepRegistered(s) == {};
    case OnCleanup(id) =>
      assert StepEdge(s, w.active[0]) == {} && StepRegistered(s) == {id};
  }

  /** The calls of a visitor, in order, with active[0] the running computation. */
  function RunSteps(w: World, steps: seq<Step>, vals: seq<Value>): (r: (World, seq<Value>))
    requires Valid(w) && w.active != [] && StepsBelow(steps, w.active[0])
    ensures Valid(r.0)
    ensures r.0 == w.(dependents := r.0.dependents, cleanups := r.0.cleanups, cleanupOrder := r.0.cleanupOrder)
    ensures r.1 == vals + Observed(w.value, steps)
    ensures forall k: Handle, y: Handle :: y in Succ(r.0.dependents, k) <==> y in Succ(w.dependents, k) || (k, y) in TrackedEdges(steps, w.active[0])
    ensures forall c :: c in CleanupsAt(r.0.cleanups, w.active[0]) <==> c in Registered(steps) || c in CleanupsAt(w.cleanups, w.active[0])
    ensures SameCleanupsBut(w.cleanups, r.0.cleanups, w.active[0])
    decreases |steps|
  {
    if steps == [] then (w, vals)
    else
      var (v, w1) := RunStep(w, steps[0]);
      RunStepRecords(w, steps[0]);
      assert StepsBelow(steps[1..], w.active[0]);
      var r := RunSteps(w1, steps[1..], vals + [v]);
      ObservedStep(w.value, steps, vals);
      r
  }

  /** The visitor of f runs with f on top of the active stack; the stack is
      balanced afterwards. */
  function RunVisitor(w: World, f: Handle): (r: (World, seq<Value>))
    requires Valid(w) && IsComputationIn(w.kinds, f)
    ensures Valid(r.0) && r.0 == w.(dependents := r.0.dependents, cleanups := r.0.cleanups, cleanupOrder := r.0.cleanupOrder)
    ensures r.1 == Observed(w.value, w.kinds[f].visitor.steps)
    ensures forall k: Handle, y: Handle :: y in Succ(r.0.dependents, k) <==> y in Succ(w.dependents, k) || (k, y) in TrackedEdges(w.kinds[f].visitor.steps, f)
    ensures forall c :: c in CleanupsAt(r.0.cleanups, f) <==> c in Registered(w.kinds[f].visitor.steps) || c in CleanupsAt(w.cleanups, f)
    ensures SameCleanupsBut(w.cleanups, r.0.cleanups, f)
  {
    var steps := w.kinds[f].visitor.steps;
    assert StepsBelow(steps, f);
    var (w1, vals) := RunSteps(w.(active := [f] + w.active), steps, []);
    (w1.(active := w1.active[1..]), vals)
  }

  /** `stream.compute()` (lib/index.js:71-76): `next` takes the visitor's
      result; the commit closure it returns is modelled by f itself, which the
      tick later commits. */
  function Compute(w: World, f: Handle): (r: World)
    requires Valid(w) && IsComputationIn(w.kinds, f)
    ensures Valid(r) && r == w.(next := r.next, dependents := r.dependents, cleanups := r.cleanups, cleanupOrder := r.cleanupOrder)
    ensures |r.next| == |w.next| && r.next[f] == w.kinds[f].visitor.fn(Observed(w.value, w.kinds[f].visitor.steps))
    ensures forall x | 0 <= x < |w.kinds| && x != f :: r.next[x] == w.next[x]
    ensures SameCleanupsBut(w.cleanups, r.cleanups, f)
  {
    var (w1, vals) := RunVisitor(w, f);
    w1.(next := w1.next[f := w.kinds[f].visitor.fn(vals)])
  }

  // ---------------------------------------------------------------------------
  // Creating streams (lib/index.js:27-30, 65-85).

  /** A new stream object with kind k at handle |w.kinds|. */
  function Extend(w: World, k: Kind, v: Value): (r: World)
    requires Valid(w) && StepsBelow(StepsOf(k), |w.kinds|)
    ensures Valid(r)
    ensures r == w.(kinds := w.kinds + [k], value := w.value + [v], next := w.next + [Undefined])
  {
    ExtendValid(w, k, v);
    w.(kinds := w.kinds + [k], value := w.value + [v], next := w.next + [Undefined])
  }

  lemma ExtendValid(w: World, k: Kind, v: Value)
    requires Valid(w) && StepsBelow(StepsOf(k), |w.kinds|)
    ensures Valid(w.(kinds := w.kinds + [k], value := w.value + [v], next := w.next + [Undefined]))
  {
    var r := w.(kinds := w.kinds + [k], value := w.value + [v], next := w.next + [Undefined]);
    var n := |w.kinds|;
    forall x: Handle | x < n ensures IsComputationIn(r.kinds, x) == IsComputationIn(w.kinds, x) {
      assert r.kinds[x] == w.kinds[x];
    }
    assert ReadersAreComputations(r.kinds, r.dependents) by {
      forall a, y | a in r.dependents && y in r.dependents[a] ensures IsComputationIn(r.kinds, y) {
        assert IsComputationIn(w.kinds, y);
      }
    }
    assert AllComputations(r.kinds, r.toRun) by {
      forall x | x in r.toRun ensures IsComputationIn(r.kinds, x) {
        assert IsComputationIn(w.kinds, x);
      }
    }
    assert StackOfComputations(r.kinds, r.active) by {
      forall i | 0 <= i < |r.active| ensures IsComputationIn(r.kinds, r.active[i]) {
        assert IsComputationIn(w.kinds, r.active[i]);
      }
    }
    assert BodiesBelow(r.kinds) by {
      forall f | 0 <= f < |r.kinds| ensures StepsBelow(StepsOf(r.kinds[f]), f) {
        if f < n {
          assert r.kinds[f] == w.kinds[f];
        }
      }
    }
  }

  lemma ObservedExtend(value: seq<Value>, v: Value, steps: seq<Step>)
    requires StepsBelow(steps, |value|)
    ensures Observed(value + [v], steps) == Observed(value, steps)
  {
    if steps != [] {
      assert StepsBelow(steps[1..], |value|);
      ObservedExtend(value, v, steps[1..]);
    }
  }

  /** `data(initial)`: the stream object `{ value: initial }`. */
  function NewData(w: World, v: Value): (r: (Handle, World))
    requires Valid(w)
    ensures Valid(r.1) && r.0 == |w.kinds| && IsData(r.1, r.0)
    ensures r.1 == w.(kinds := w.kinds + [Data], value := w.value + [v], next := w.next + [Undefined])
  {
    (|w.kinds|, Extend(w, Data, v))
  }

  /** `computation(visitor)`: the first run sets `value` directly, outside any
      tick, and is not counted in `stats`. */
  function NewComputation(w: World, visitor: Visitor): (r: (Handle, World))
    requires Valid(w) && StepsBelow(visitor.steps, |w.kinds|)
    ensures Valid(r.1) && r.0 == |w.kinds| && r.1.kinds == w.kinds + [Comp(visitor)]
    ensures r.1.value == w.value + [visitor.fn(Observed(w.value, visitor.steps))]
    ensures r.1.next == w.next + [Undefined]
    ensures forall k: Handle, y: Handle :: y in Succ(r.1.dependents, k) <==> y in Succ(w.dependents, k) || (k, y) in TrackedEdges(visitor.steps, r.0)
    ensures r.1 == w.(kinds := r.1.kinds, value := r.1.value, next := r.1.next, dependents := r.1.dependents,
      cleanups := r.1.cleanups, cleanupOrder := r.1.cleanupOrder)
  {
    var f := |w.kinds|;
    var w1 := Extend(w, Comp(visitor), Undefined);
    ObservedExtend(w.value, Undefined, visitor.steps);
    var (w2, vals) := RunVisitor(w1, f);
    (f, w2.(value := w2.value[f := visitor.fn(vals)]))
  }

  // ---------------------------------------------------------------------------
  // The flood fill inside the write accessor (lib/index.js:38-49), which treats
  // no computation as a leaf.

  function PropagateFrom(w: World, s: Handle): (r: World)
    requires Valid(w)
    ensures Valid(r) && r == w.(dependents := r.dependents, toRun := r.toRun)
    ensures w.toRun <= r.toRun
    ensures forall c :: c in r.toRun <==> c in w.toRun || Reaches(w.dependents, {}, s, c)
    ensures Succ(r.dependents, s) == []
    ensures forall k: Handle | k != s :: Succ(r.dependents, k) == Succ(w.dependents, k)
  {
    var (g, t) := ComputeDependents(w.dependents, {}, |w.kinds|, s, w.toRun);
    ComputeDependentsFacts(w.dependents, {}, |w.kinds|, s, w.toRun);
    var r := w.(dependents := g, toRun := t);
    FilterNothing(Succ(w.dependents, s));
    assert ReadersAreComputations(w.kinds, g) by {
      forall k, y | k in g && y in g[k] ensures IsComputationIn(w.kinds, y) {
        assert y in Succ(g, k);
        assert y in Succ(w.dependents, k);
      }
    }
    assert AllComputations(w.kinds, t) by {
      forall c | c in t ensures IsComputationIn(w.kinds, c) {
        if c !in w.toRun {
          var k := ReachedIsReader(w.dependents, {}, s, c);
        }
      }
    }
    r
  }

  // ---------------------------------------------------------------------------
  // tick (lib/index.js:123-148).

  /** Runs and deletes every cleanup callback of f, in set order. */
  function RunCleanups(w: World, f: Handle): (r: World)
    requires Valid(w)
    ensures Valid(r) && r == w.(cleanups := r.cleanups, cleanupOrder := r.cleanupOrder, called := r.called)
    ensures f in r.cleanups && r.cleanups[f] == []
    ensures r.called == w.called + CleanupsAt(w.cleanups, f)
    ensures SameCleanupsBut(w.cleanups, r.cleanups, f)
  {
    var (m, ids) := Xet(w.cleanups, f, EmptySet);
    var order := if f in w.cleanups then w.cleanupOrder else w.cleanupOrder + [f];
    w.(called := w.called + ids, cleanups := m[f := []], cleanupOrder := order)
  }

  /** One iteration of tick's first loop. */
  function RunItem(w: World, f: Handle): (r: World)
    requires Valid(w) && IsComputationIn(w.kinds, f)
    ensures Valid(r) && r == w.(next := r.next, dependents := r.dependents, cleanups := r.cleanups,
      cleanupOrder := r.cleanupOrder, evaluated := r.evaluated, called := r.called)
    ensures r.evaluated == w.evaluated + 1
    ensures r.called == w.called + CleanupsAt(w.cleanups, f)
    ensures SameCleanupsBut(w.cleanups, r.cleanups, f)
    ensures |r.next| == |w.next| && forall x | 0 <= x < |w.kinds| && x != f :: r.next[x] == w.next[x]
    ensures r.next[f] == w.kinds[f].visitor.fn(Observed(w.value, w.kinds[f].visitor.steps))
  {
    var w1 := RunCleanups(w, f);
    Compute(w1.(evaluated := w1.evaluated + 1), f)
  }

  /** tick's first loop: `for (let f of items) { ...; updates.push(f.compute()) }`. */
  function RunItems(w: World, items: seq<Handle>): (r: World)
    requires Valid(w) && AllComputations(w.kinds, items)
    ensures Valid(r) && r == w.(next := r.next, dependents := r.dependents, cleanups := r.cleanups,
      cleanupOrder := r.cleanupOrder, evaluated := r.evaluated, called := r.called)
    decreases |items|
  {
    if items == [] then w
    else
      var w1 := RunItem(w, items[0]);
      assert AllComputations(w1.kinds, items[1..]);
      RunItems(w1, items[1..])
  }

  /** `stats.ticks++; propagating = true; let items = [...toRun]; toRun.clear()` */
  function Begin(w: World): (r: World)
    requires Valid(w)
    ensures Valid(r) && r == w.(ticks := w.ticks + 1, propagating := true, toRun := [])
  {
    w.(ticks := w.ticks + 1, propagating := true, toRun := [])
  }

  /** tick's second loop over the commit closures, then `propagating = false`. */
  function Settle(w: World, items: seq<Handle>): (r: World)
    requires Valid(w) && AllComputations(w.kinds, items)
    ensures Valid(r) && r == w.(value := r.value, propagating := false)
    ensures forall x | 0 <= x < |w.kinds| :: r.value[x] == if x in items then w.next[x] else w.value[x]
  {
    assert Bounded(items, |w.value|);
    w.(value := CommitValues(w.value, w.next, items), propagating := false)
  }

  /** `tick()` */
  function Tick(w: World): (r: World)
    requires Valid(w)
    ensures Valid(r) && r.kinds == w.kinds && r.active == w.active && r.batching == w.batching
    ensures w.propagating ==> r == w
    ensures !w.propagating ==> !r.propagating && r.ticks == w.ticks + 1 && r.toRun == []
  {
    if w.propagating then w
    else Settle(RunItems(Begin(w), w.toRun), w.toRun)
  }

  /** The snapshot's items leave every stream outside it untouched. */
  lemma {:induction false} RunItemsUntouched(w: World, items: seq<Handle>)
    requires Valid(w) && AllComputations(w.kinds, items)
    ensures forall x | 0 <= x < |w.kinds| && x !in items :: RunItems(w, items).next[x] == w.next[x]
    decreases |items|
  {
    if items != [] {
      var w1 := RunItem(w, items[0]);
      assert AllComputations(w1.kinds, items[1..]);
      RunItemsUntouched(w1, items[1..]);
    }
  }

  /** Every snapshot computation's pending value is its visitor applied to
      the committed values, which stay as they were for the whole loop. */
  lemma {:induction false} RunItemsComputes(w: World, items: seq<Handle>)
    requires Valid(w) && AllComputations(w.kinds, items)
    ensures forall x | x in items ::
      RunItems(w, items).next[x] == w.kinds[x].visitor.fn(Observed(w.value, w.kinds[x].visitor.steps))
    decreases |items|
  {
    if items != [] {
      var w1 := RunItem(w, items[0]);
      assert AllComputations(w1.kinds, items[1..]);
      RunItemsComputes(w1, items[1..]);
      RunItemsUntouched(w1, items[1..]);
      var r := RunItems(w1, items[1..]);
      assert RunItems(w, items) == r;
      assert w1.value == w.value && w1.kinds == w.kinds;
      TailIn(items);
    }
  }

  /** Every snapshot computation is evaluated, once each. */
  lemma {:induction false} RunItemsEvaluated(w: World, items: seq<Handle>)
    requires Valid(w) && AllComputations(w.kinds, items)
    ensures RunItems(w, items).evaluated == w.evaluated + |items|
    decreases |items|
  {
    if items != [] {
      var w1 := RunItem(w, items[0]);
      assert AllComputations(w1.kinds, items[1..]);
      RunItemsEvaluated(w1, items[1..]);
    }
  }

  /** Every snapshot computation's cleanups run, in snapshot order. */
  lemma {:induction false} RunItemsCleanups(w: World, items: seq<Handle>)
    requires Valid(w) && AllComputations(w.kinds, items) && NoDup(items)
    ensures RunItems(w, items).called == w.called + AllCleanups(w.cleanups, items)
    decreases |items|
  {
    if items != [] {
      var w1 := RunItem(w, items[0]);
      assert AllComputations(w1.kinds, items[1..]);
      NoDupTail(items);
      RunItemsCleanups(w1, items[1..]);
      AllCleanupsAgree(w.cleanups, w1.cleanups, items[0], items[1..]);
      ConcatAssoc(w.called, CleanupsAt(w.cleanups, items[0]), AllCleanups(w.cleanups, items[1..]));
    }
  }

  /** A tick evaluates every computation it snapshots and runs their cleanups. */
  lemma TickEvaluates(w: World)
    requires Valid(w) && !w.propagating
    ensures Tick(w).evaluated == w.evaluated + |w.toRun|
    ensures Tick(w).called == w.called + AllCleanups(w.cleanups, w.toRun)
  {
    RunItemsEvaluated(Begin(w), w.toRun);
    RunItemsCleanups(Begin(w), w.toRun);
  }

  /** Two-phase commit: no value changes while the snapshot computes; then each
      snapshot computation's value is the `next` it computed, and every other
      stream keeps its value. */
  lemma TickCommits(w: World)
    requires Valid(w) && !w.propagating
    ensures RunItems(Begin(w), w.toRun).value == w.value
    ensures forall x | 0 <= x < |w.kinds| ::
      Tick(w).value[x] == if x in w.toRun then Tick(w).next[x] else w.value[x]
    ensures forall x | 0 <= x < |w.kinds| && x !in w.toRun :: Tick(w).next[x] == w.next[x]
  {
    RunItemsUntouched(Begin(w), w.toRun);
  }

  /** What the snapshot computations commit: after a tick each of them holds
      its visitor applied to the values from before the tick. */
  lemma TickComputes(w: World)
    requires Valid(w) && !w.propagating
    ensures forall x | x in w.toRun ::
      Tick(w).value[x] == w.kinds[x].visitor.fn(Observed(w.value, w.kinds[x].visitor.steps))
  {
    var w0 := Begin(w);
    RunItemsComputes(w0, w.toRun);
    var w1 := RunItems(w0, w.toRun);
    assert Tick(w) == Settle(w1, w.toRun);
    forall x | x in w.toRun
      ensures Tick(w).value[x] == w.kinds[x].visitor.fn(Observed(w.value, w.kinds[x].visitor.steps))
    {
      assert Tick(w).value[x] == w1.next[x];
    }
  }

  // ---------------------------------------------------------------------------
  // Writes (lib/index.js:31-53, 61).

  /** A data accessor called with an argument: the value changes at once, the
      readers are flooded, and a tick runs unless one is running or a batch is
      open. The accessor returns the stream's value afterwards. */
  function Write(w: World, h: Handle, arg: Arg): (r: (Value, World))
    requires Valid(w) && IsData(w, h)
    ensures Valid(r.1) && r.1.kinds == w.kinds && r.1.active == w.active
    ensures r.1.propagating == w.propagating && r.1.batching == w.batching
    ensures r.0 == Apply(arg, w.value[h]) && r.1.value[h] == r.0
    ensures r.1.ticks == if !w.propagating && !w.batching then w.ticks + 1 else w.ticks
  {
    var w1 := w.(value := w.value[h := Apply(arg, w.value[h])]);
    var w2 := PropagateFrom(w1, h);
    if !w2.propagating && !w2.batching then
      var w3 := Tick(w2);
      TickCommits(w2);
      assert h !in w2.toRun;
      (w3.value[h], w3)
    else
      (w2.value[h], w2)
  }

  /** Inside a batch a write ticks nothing: the value is set and the readers
      are scheduled, nothing more. */
  lemma WriteBatched(w: World, h: Handle, arg: Arg)
    requires Valid(w) && IsData(w, h) && w.batching
    ensures var r := Write(w, h, arg).1;
      && r.toRun == PropagateFrom(w.(value := w.value[h := Apply(arg, w.value[h])]), h).toRun
      && (forall x | 0 <= x < |w.kinds| && x != h :: r.value[x] == w.value[x])
      && r.evaluated == w.evaluated && r.ticks == w.ticks
  {
  }

  // ---------------------------------------------------------------------------
  // batch (lib/index.js:95-101) and root's disposer (lib/index.js:112-121).

  /** The callback passed to `batch`: the writes and nested batches it makes. */
  datatype Batched = Batched(ops: seq<Op>)
  datatype Op = Put(stream: Handle, arg: Arg) | Nest(b: Batched)

  ghost predicate WritesData(kinds: seq<Kind>, f: Batched)
    decreases f, 1
  {
    forall i | 0 <= i < |f.ops| :: OpWritesData(kinds, f.ops[i])
  }

  /** A call of the callback writes a data stream, or opens a batch that does. */
  ghost predicate OpWritesData(kinds: seq<Kind>, op: Op)
    decreases op, 0
  {
    match op
    case Put(h, _) => h < |kinds| && kinds[h].Data?
    case Nest(g) => WritesData(kinds, g)
  }

  /** `batch(f)` */
  function Batch(w: World, f: Batched): (r: World)
    requires Valid(w) && WritesData(w.kinds, f)
    ensures Valid(r) && r.kinds == w.kinds && r.active == w.active
    ensures r.batching == w.batching && r.propagating == w.propagating
    decreases f, 1, 0
  {
    var w1 := RunOps(w.(batching := true), f, 0);
    Tick(w1.(batching := w.batching))
  }

  /** The body of f from its i-th call on. */
  function RunOps(w: World, f: Batched, i: nat): (r: World)
    requires Valid(w) && WritesData(w.kinds, f) && i <= |f.ops|
    ensures Valid(r) && r.kinds == w.kinds && r.active == w.active
    ensures r.batching == w.batching && r.propagating == w.propagating
    decreases f, 0, |f.ops| - i
  {
    if i == |f.ops| then w
    else RunOps(RunOp(w, f.ops[i]), f, i + 1)
  }

  /** One call the callback makes: a write, or a nested batch. */
  function RunOp(w: World, op: Op): (r: World)
    requires Valid(w) && OpWritesData(w.kinds, op)
    ensures Valid(r) && r.kinds == w.kinds && r.active == w.active
    ensures r.batching == w.batching && r.propagating == w.propagating
    decreases op, 2, 0
  {
    match op
    case Put(h, arg) => Write(w, h, arg).1
    case Nest(g) => Batch(w, g)
  }

  /** How many ticks `batch(f)` runs: its own, and one for every nested batch,
      since `tick` does not look at `batching`. */
  function BatchTicks(f: Batched): nat
    decreases f, 1, 0
  {
    1 + NestedTicks(f, 0)
  }

  function NestedTicks(f: Batched, i: nat): nat
    requires i <= |f.ops|
    decreases f, 0, |f.ops| - i
  {
    if i == |f.ops| then 0
    else (if f.ops[i].Nest? then BatchTicks(f.ops[i].b) else 0) + NestedTicks(f, i + 1)
  }

  /** The writes of a batch tick once, at its end; every nested batch ticks once
      more when it closes. */
  lemma {:induction false} BatchTickCount(w: World, f: Batched)
    requires Valid(w) && WritesData(w.kinds, f) && !w.propagating
    ensures Batch(w, f).ticks == w.ticks + BatchTicks(f)
    decreases f, 1, 0
  {
    RunOpsTickCount(w.(batching := true), f, 0);
  }

  lemma {:induction false} RunOpsTickCount(w: World, f: Batched, i: nat)
    requires Valid(w) && WritesData(w.kinds, f) && i <= |f.ops| && !w.propagating && w.batching
    ensures RunOps(w, f, i).ticks == w.ticks + NestedTicks(f, i)
    decreases f, 0, |f.ops| - i
  {
    if i < |f.ops| {
      match f.ops[i]
      case Put(h, arg) =>
        RunOpsTickCount(Write(w, h, arg).1, f, i + 1);
      case Nest(g) =>
        BatchTickCount(w, g);
        RunOpsTickCount(Batch(w, g), f, i + 1);
    }
  }

  /** Every write inside a batch applies to the value the previous one left,
      so n decrements inside one batch take n off the stream. */
  lemma {:induction false} RunDecrements(w: World, f: Batched, h: Handle, i: nat, k: int)
    requires Valid(w) && IsData(w, h) && w.batching && WritesData(w.kinds, f) && i <= |f.ops|
    requires forall j | i <= j < |f.ops| :: f.ops[j] == Put(h, Updater(Decrement))
    requires w.value[h] == Int(k)
    ensures RunOps(w, f, i).value[h] == Int(k - (|f.ops| - i))
    decreases |f.ops| - i
  {
    if i < |f.ops| {
      RunDecrements(Write(w, h, Updater(Decrement)).1, f, h, i + 1, k - 1);
    }
  }

  lemma {:induction false} NoNested(f: Batched, i: nat)
    requires i <= |f.ops| && forall j | i <= j < |f.ops| :: f.ops[j].Put?
    ensures NestedTicks(f, i) == 0
    decreases |f.ops| - i
  {
    if i < |f.ops| {
      NoNested(f, i + 1);
    }
  }

  /** A batch of n decrements of one stream takes n off it, in one tick. */
  lemma BatchDecrements(w: World, f: Batched, h: Handle, k: int)
    requires Valid(w) && IsData(w, h) && !w.propagating && w.value[h] == Int(k)
    requires forall j | 0 <= j < |f.ops| :: f.ops[j] == Put(h, Updater(Decrement))
    ensures WritesData(w.kinds, f)
    ensures Batch(w, f).value[h] == Int(k - |f.ops|) && Batch(w, f).ticks == w.ticks + 1
  {
    assert WritesData(w.kinds, f) by {
      forall i | 0 <= i < |f.ops| ensures OpWritesData(w.kinds, f.ops[i]) {
        assert f.ops[i] == Put(h, Updater(Decrement));
      }
    }
    var w0 := w.(batching := true);
    RunDecrements(w0, f, h, 0, k);
    var w1 := RunOps(w0, f, 0);
    var w2 := w1.(batching := w.batching);
    assert Batch(w, f) == Tick(w2);
    TickCommits(w2);
    assert h !in w2.toRun;
    BatchTickCount(w, f);
    NoNested(f, 0);
  }

  /** The four-decrement scenario of the batch tests. */
  lemma BatchFourDecrements(w: World, h: Handle, k: int)
    requires Valid(w) && IsData(w, h) && !w.propagating && w.value[h] == Int(k)
    ensures var dec := Put(h, Updater(Decrement));
      var r := Batch(w, Batched([dec, dec, dec, dec]));
      r.value[h] == Int(k - 4) && r.ticks == w.ticks + 1
  {
    var dec := Put(h, Updater(Decrement));
    BatchDecrements(w, Batched([dec, dec, dec, dec]), h, k);
  }

  /** The disposer `root(f)` passes to f: every cleanup set, in Map order, then
      `cleanups.clear()`. */
  function Dispose(w: World): (r: World)
    requires Valid(w)
    ensures Valid(r) && r.cleanups == map[] && r == w.(cleanups := r.cleanups, cleanupOrder := r.cleanupOrder, called := r.called)
    ensures r.called == w.called + AllCleanups(w.cleanups, w.cleanupOrder)
  {
    w.(called := w.called + AllCleanups(w.cleanups, w.cleanupOrder), cleanups := map[], cleanupOrder := [])
  }

  /** The disposer calls exactly the registered callbacks and leaves none. */
  lemma DisposeCallsAll(w: World)
    requires Valid(w)
    ensures var r := Dispose(w);
      && r.cleanups == map[] && r.called[..|w.called|] == w.called
      && forall c :: c in r.called[|w.called|..] <==> exists f :: f in w.cleanups && c in w.cleanups[f]
  {
    var r := Dispose(w);
    assert r.called[|w.called|..] == AllCleanups(w.cleanups, w.cleanupOrder);
    AllCleanupsMembers(w.cleanups, w.cleanupOrder);
  }
}
