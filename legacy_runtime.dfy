/** The module state of lib/index.js as one object whose fields the exported
    functions update in place. Every method is proved against the function of
    the same name in `Legacy`. */
module LegacyMachine {
  import opened Common
  import opened Graph
  import L = Legacy

  class Runtime {
    var kinds: seq<L.Kind>
    var value: seq<Value>
    var next: seq<Value>
    var toRun: seq<Handle>
    var dependents: Deps
    var cleanupOrder: seq<Handle>
    var cleanups: map<Handle, seq<CleanupId>>
    var active: seq<Handle>
    var propagating: bool
    var batching: bool
    var ticks: nat
    var evaluated: nat
    var called: seq<CleanupId>

    /** The fields, as a world. */
    ghost function W(): L.World
      reads this
    {
      L.World(kinds, value, next, toRun, dependents, cleanupOrder, cleanups, active,
        propagating, batching, ticks, evaluated, called)
    }

    ghost predicate Valid()
      reads this
    {
      L.Valid(W())
    }

    /** The state when the module is loaded. */
    constructor ()
      ensures Valid() && W() == L.Initial()
    {
      kinds, value, next, toRun := [], [], [], [];
      dependents, cleanupOrder, cleanups, active := map[], [], map[], [];
      propagating, batching := false, false;
      ticks, evaluated, called := 0, 0, [];
    }

    // -------------------------------------------------------------------------
    // Reads and cleanup registration.

    /** A stream accessor called with no argument (lib/index.js:54-61, 86-92). */
    method Read(h: Handle) returns (v: Value)
      requires Valid() && h < |kinds| && (active != [] ==> h < active[0])
      modifies this
      ensures (v, W()) == L.Read(old(W()), h)
    {
      if active != [] {
        var (g, ys) := Xet(dependents, h, EmptySet);
        dependents := g[h := Insert(ys, active[0])];
      }
      v := value[h];
    }

    /** `sample(signal)` */
    method Sample(h: Handle) returns (v: Value)
      requires Valid() && h < |kinds|
      modifies this
      ensures (v, W()) == L.Sample(old(W()), h)
    {
      var oldActive := active;
      active := [];
      v := Read(h);
      active := oldActive;
    }

    /** `xet(cleanups, f, () => new Set()).add(id)` */
    method Register(f: Handle, id: CleanupId)
      requires Valid()
      modifies this
      ensures W() == L.Register(old(W()), f, id)
    {
      if f !in cleanups {
        cleanups := cleanups[f := []];
        cleanupOrder := cleanupOrder + [f];
      }
      cleanups := cleanups[f := Insert(cleanups[f], id)];
    }

    /** `cleanup(f)` */
    method Cleanup(id: CleanupId) returns (res: Result<()>)
      requires Valid()
      modifies this
      ensures res.Ok? <==> L.Cleanup(old(W()), id).Ok?
      ensures res.Ok? ==> W() == L.Cleanup(old(W()), id).value
      ensures res.Err? ==> res.error == L.Cleanup(old(W()), id).error && W() == old(W())
    {
      if active != [] {
        Register(active[0], id);
        res := Ok(());
      } else {
        res := Err(CleanupWithoutComputationContext);
      }
    }

    // -------------------------------------------------------------------------
    // Running a visitor.

    /** One call a visitor makes while active[0] is running. */
    method RunStep(st: Step) returns (v: Value)
      requires Valid() && active != [] && (!st.OnCleanup? ==> st.src < active[0])
      modifies this
      ensures (v, W()) == L.RunStep(old(W()), st)
    {
      match st
      case Track(h) =>
        v := Read(h);
      case Untracked(h) =>
        v := Sample(h);
      case OnCleanup(id) =>
        var res := Cleanup(id);
        v := Undefined;
    }

    /** `visitor()`: its calls, in order, with f on top of the active stack. */
    method RunSteps(f: Handle) returns (vals: seq<Value>)
      requires Valid() && active != [] && active[0] == f && L.IsComputationIn(kinds, f)
      modifies this
      ensures (W(), vals) == L.RunSteps(old(W()), old(kinds)[f].visitor.steps, [])
      ensures kinds == old(kinds)
    {
      var steps := kinds[f].visitor.steps;
      assert StepsBelow(steps, f);
      vals := [];
      for i := 0 to |steps|
        invariant Valid() && active == old(active) && kinds == old(kinds)
        invariant L.RunSteps(W(), steps[i..], vals) == L.RunSteps(old(W()), steps, [])
      {
        assert StepsBelow(steps[i..], f);
        assert steps[i..][1..] == steps[i + 1..];
        var v := RunStep(steps[i]);
        vals := vals + [v];
      }
    }

    /** `active.unshift(stream); visitor(); active.shift()` */
    method RunVisitor(f: Handle) returns (vals: seq<Value>)
      requires Valid() && L.IsComputationIn(kinds, f)
      modifies this
      ensures (W(), vals) == L.RunVisitor(old(W()), f)
    {
      active := [f] + active;
      assert L.StackOfComputations(kinds, active);
      vals := RunSteps(f);
      active := active[1..];
    }

    /** `stream.compute()` (lib/index.js:71-76); the commit closure it returns
        is f itself. */
    method Compute(f: Handle)
      requires Valid() && L.IsComputationIn(kinds, f)
      modifies this
      ensures W() == L.Compute(old(W()), f)
    {
      var vals := RunVisitor(f);
      next := next[f := kinds[f].visitor.fn(vals)];
    }

    // -------------------------------------------------------------------------
    // Creating streams (lib/index.js:27-30, 65-85).

    /** `data(initial)` */
    method NewData(v: Value) returns (h: Handle)
      requires Valid()
      modifies this
      ensures (h, W()) == L.NewData(old(W()), v)
    {
      h := |kinds|;
      Extend(L.Data, v);
    }

    /** A new stream object with kind k. */
    method Extend(k: L.Kind, v: Value)
      requires Valid() && StepsBelow(L.StepsOf(k), |kinds|)
      modifies this
      ensures W() == L.Extend(old(W()), k, v)
    {
      kinds, value, next := kinds + [k], value + [v], next + [Undefined];
    }

    /** `computation(visitor)` */
    method NewComputation(visitor: L.Visitor) returns (h: Handle)
      requires Valid() && StepsBelow(visitor.steps, |kinds|)
      modifies this
      ensures (h, W()) == L.NewComputation(old(W()), visitor)
    {
      h := |kinds|;
      Extend(L.Comp(visitor), Undefined);
      var vals := RunVisitor(h);
      value := value[h := visitor.fn(vals)];
    }

    // -------------------------------------------------------------------------
    // Writes (lib/index.js:31-53, 61).

    /** The flood fill of the write accessor (lib/index.js:38-49). */
    method PropagateFrom(s: Handle)
      requires Valid()
      modifies this
      ensures W() == L.PropagateFrom(old(W()), s)
    {
      ghost var n := |kinds|;
      ghost var target := ComputeDependents(dependents, {}, n, s, toRun);
      var start := Xet(dependents, s, EmptySet);
      var g: Deps, stack: seq<Handle>, t: seq<Handle> := start.0, start.1, toRun;
      UpwardAbove(dependents, n, s);
      while stack != []
        invariant Upward(g, n) && s in g && Above(stack, s, n)
        invariant Flood(g, {}, n, s, stack, t) == target && W() == old(W())
        decreases PathTotal(g, n, stack)
      {
        var x := stack[0];
        assert x in stack;
        FloodMeasure(g, n, s, stack);
        VisitFacts(g, n, s, x);
        stack := stack[1..];
        var readers := Xet(g, x, EmptySet);
        stack := stack + readers.1;
        t := Insert(t, x);
        g := readers.0[s := Delete(readers.0[s], x)];
      }
      assert L.PropagateFrom(old(W()), s) == old(W()).(dependents := g, toRun := t);
      dependents, toRun := g, t;
    }

    /** A data accessor called with an argument. */
    method Write(h: Handle, arg: Arg) returns (v: Value)
      requires Valid() && L.IsData(W(), h)
      modifies this
      ensures (v, W()) == L.Write(old(W()), h, arg)
    {
      value := value[h := Apply(arg, value[h])];
      PropagateFrom(h);
      if !propagating && !batching {
        Tick();
      }
      v := value[h];
    }

    // -------------------------------------------------------------------------
    // tick (lib/index.js:123-148).

    /** Runs and deletes every cleanup callback of f, in set order. */
    method RunCleanups(f: Handle)
      requires Valid()
      modifies this
      ensures W() == L.RunCleanups(old(W()), f)
    {
      if f !in cleanups {
        cleanups := cleanups[f := []];
        cleanupOrder := cleanupOrder + [f];
      }
      var left, log := RunEach(cleanups[f], called);
      called, cleanups := log, cleanups[f := left];
    }

    /** One iteration of tick's first loop. */
    method RunItem(f: Handle)
      requires Valid() && L.IsComputationIn(kinds, f)
      modifies this
      ensures W() == L.RunItem(old(W()), f)
    {
      RunCleanups(f);
      ghost var w1 := W();
      assert w1 == L.RunCleanups(old(W()), f) && kinds == old(kinds);
      Count();
      assert W() == w1.(evaluated := w1.evaluated + 1);
      assert L.RunItem(old(W()), f) == L.Compute(W(), f);
      Compute(f);
    }

    /** `stats.computations.evaluated++` */
    method Count()
      requires Valid()
      modifies this
      ensures Valid() && W() == old(W()).(evaluated := old(evaluated) + 1)
    {
      evaluated := evaluated + 1;
    }

    /** tick's first loop. The commit closure each `compute` pushes onto
        `updates` is modelled by its stream, so `updates` is the snapshot. */
    method RunAll(items: seq<Handle>)
      requires Valid() && L.AllComputations(kinds, items)
      modifies this
      ensures W() == L.RunItems(old(W()), items)
    {
      for i := 0 to |items|
        invariant Valid() && kinds == old(kinds) && L.AllComputations(kinds, items[i..])
        invariant L.RunItems(W(), items[i..]) == L.RunItems(old(W()), items)
      {
        assert items[i] in items[i..];
        assert items[i..][1..] == items[i + 1..];
        RunItem(items[i]);
      }
    }

    method Begin() returns (items: seq<Handle>)
      requires Valid()
      modifies this
      ensures W() == L.Begin(old(W())) && items == old(toRun)
    {
      ticks, propagating := ticks + 1, true;
      items := toRun;
      toRun := [];
    }

    /** `for (let f of updates) f(); propagating = false` */
    method Settle(updates: seq<Handle>)
      requires Valid() && L.AllComputations(kinds, updates)
      modifies this
      ensures W() == L.Settle(old(W()), updates)
    {
      assert Bounded(updates, |value|);
      var v := Commit(value, next, updates);
      assert v == CommitValues(value, next, updates);
      value, propagating := v, false;
    }

    /** `tick()` */
    method Tick()
      requires Valid()
      modifies this
      ensures W() == L.Tick(old(W()))
    {
      if propagating {
        return;
      }
      var items := Begin();
      RunAll(items);
      Settle(items);
    }

    // -------------------------------------------------------------------------
    // batch (lib/index.js:95-101) and root's disposer (lib/index.js:112-121).

    /** `batch(f)` */
    method Batch(f: L.Batched)
      requires Valid() && L.WritesData(kinds, f)
      modifies this
      ensures W() == L.Batch(old(W()), f)
      decreases f, 1
    {
      var oldBatching := batching;
      batching := true;
      RunOps(f);
      batching := oldBatching;
      Tick();
    }

    /** `f()`: its writes and nested batches, one after the other. */
    method RunOps(f: L.Batched)
      requires Valid() && L.WritesData(kinds, f)
      modifies this
      ensures W() == L.RunOps(old(W()), f, 0)
      decreases f, 0
    {
      ghost var target := L.RunOps(W(), f, 0);
      for i := 0 to |f.ops|
        invariant Valid() && L.WritesData(kinds, f)
        invariant L.RunOps(W(), f, i) == target
      {
        RunOp(f.ops[i]);
      }
    }

    /** One call of the callback. */
    method RunOp(op: L.Op)
      requires Valid() && L.OpWritesData(kinds, op)
      modifies this
      ensures W() == L.RunOp(old(W()), op)
      decreases op, 2
    {
      match op
      case Put(h, arg) =>
        var v := Write(h, arg);
      case Nest(g) =>
        Batch(g);
    }

    /** The disposer `root(f)` passes to f. */
    method Dispose()
      requires Valid()
      modifies this
      ensures W() == L.Dispose(old(W()))
    {
      var log := CallEvery(cleanups, cleanupOrder, called);
      called, cleanups, cleanupOrder := log, map[], [];
    }
  }
}
