/** The module state of lib/index.ts as one object whose fields the exported
    functions update in place. Every method is proved against the function of
    the same name in `Scheduler`: the state it leaves behind, viewed as a
    `World`, is the world that function computes from the state it found. */
module Machine {
  import opened Common
  import opened Graph
  import S = Scheduler

  class Runtime {
    var kinds: seq<S.Kind>
    var value: seq<Value>
    var next: seq<Value>
    var state: S.State
    var toRun: seq<Handle>
    var dependents: Deps
    var cleanupOrder: seq<Handle>
    var cleanups: map<Handle, seq<CleanupId>>
    var active: seq<Handle>
    var resolve: seq<Handle>
    var nextTicks: seq<S.Deferred>
    var doNotReCompute: seq<Handle>
    var children: map<Handle, seq<Handle>>
    var ticks: nat
    var evaluated: nat
    var called: seq<CleanupId>

    /** The fields, as a world. */
    ghost function W(): S.World
      reads this
    {
      S.World(kinds, value, next, state, toRun, dependents, cleanupOrder, cleanups, active,
        resolve, nextTicks, doNotReCompute, children, ticks, evaluated, called)
    }

    ghost predicate Valid()
      reads this
    {
      S.Valid(W())
    }

    /** The state when the module is loaded. */
    constructor ()
      ensures Valid() && W() == S.Initial()
    {
      kinds, value, next, state := [], [], [], S.Idle;
      toRun, dependents, cleanupOrder, cleanups := [], map[], [], map[];
      active, resolve, nextTicks := [], [], [];
      doNotReCompute, children := [], map[];
      ticks, evaluated, called := 0, 0, [];
    }

    // -------------------------------------------------------------------------
    // Reads and cleanup registration.

    /** A stream accessor called with no argument (lib/index.ts:198-205, 244-250). */
    method Read(h: Handle) returns (v: Value)
      requires Valid() && h < |kinds| && (active != [] ==> h < active[0])
      modifies this
      ensures (v, W()) == S.Read(old(W()), h)
    {
      if active != [] {
        var (g, ys) := Xet(dependents, h, EmptySet);
        dependents := g[h := Insert(ys, active[0])];
        v := next[h];
      } else {
        v := value[h];
      }
    }

    /** `sample(signal)` */
    method Sample(h: Handle) returns (v: Value)
      requires Valid() && h < |kinds|
      modifies this
      ensures (v, W()) == S.Sample(old(W()), h)
    {
      var oldActive := active;
      active := [];
      v := Read(h);
      active := oldActive;
    }

    /** `xet(cleanups, f, () => new Set()).add(id)` */
    method Register(f: Handle, id: CleanupId)
      requires Valid()
      modifies this
      ensures W() == S.Register(old(W()), f, id)
    {
      if f !in cleanups {
        cleanups := cleanups[f := []];
        cleanupOrder := cleanupOrder + [f];
      }
      cleanups := cleanups[f := Insert(cleanups[f], id)];
    }

    /** `cleanup(f)` */
    method Cleanup(id: CleanupId) returns (res: Result<()>)
      requires Valid()
      modifies this
      ensures res.Ok? <==> S.Cleanup(old(W()), id).Ok?
      ensures res.Ok? ==> W() == S.Cleanup(old(W()), id).value
      ensures res.Err? ==> res.error == S.Cleanup(old(W()), id).error && W() == old(W())
    {
      if active != [] {
        Register(active[0], id);
        res := Ok(());
      } else {
        res := Err(CleanupWithoutComputationContext);
      }
    }

    // -------------------------------------------------------------------------
    // The flood fill.

    /** `computeDependents(s)` (lib/index.ts:119-137). */
    method ComputeDependents(s: Handle)
      requires Valid()
      modifies this
      ensures W() == S.PropagateFrom(old(W()), s)
    {
      ghost var n := |kinds|;
      ghost var leaves := S.Generators(W());
      ghost var target := Graph.ComputeDependents(dependents, leaves, n, s, toRun);
      var start := Xet(dependents, s, EmptySet);
      var g: Deps, stack: seq<Handle>, t: seq<Handle> := start.0, start.1, toRun;
      UpwardAbove(dependents, n, s);
      while stack != []
        invariant Upward(g, n) && s in g && Above(stack, s, n)
        invariant Flood(g, leaves, n, s, stack, t) == target && W() == old(W())
        decreases PathTotal(g, n, stack)
      {
        var x := stack[0];
        assert x in stack;
        assert x in leaves <==> kinds[x].Generator?;
        FloodMeasure(g, n, s, stack);
        VisitFacts(g, n, s, x);
        stack := stack[1..];
        if !kinds[x].Generator? {
          var readers := Xet(g, x, EmptySet);
          stack := stack + readers.1;
          t := Insert(t, x);
          g := readers.0[s := Delete(readers.0[s], x)];
        }
        t := Insert(t, x);
      }
      assert (g, t) == target;
      assert S.PropagateFrom(old(W()), s) == old(W()).(dependents := g, toRun := t);
      dependents, toRun := g, t;
    }

    /** `cleanupChildren(stream)` (lib/index.ts:139-156). */
    method CleanupChildren(f: Handle)
      modifies this
      ensures W() == S.CleanupChildren(old(W()), f)
    {
      ghost var d0 := doNotReCompute;
      var (ch, xs) := Xet(children, f, EmptySet);
      children := ch;
      for i := 0 to |xs|
        invariant InsertAll(doNotReCompute, xs[i..]) == InsertAll(d0, xs)
        invariant W() == old(W()).(children := ch, doNotReCompute := doNotReCompute)
      {
        assert xs[i..][1..] == xs[i + 1..];
        doNotReCompute := Insert(doNotReCompute, xs[i]);
      }
    }

    // -------------------------------------------------------------------------
    // Running a body.

    /** One call a body makes while active[0] is running. */
    method RunStep(st: Step) returns (v: Value)
      requires Valid() && active != [] && (!st.OnCleanup? ==> st.src < active[0])
      modifies this
      ensures (v, W()) == S.RunStep(old(W()), st)
    {
      match st
      case Track(h) =>
        v := Read(h);
      case Untracked(h) =>
        v := Sample(h);
      case OnCleanup(id) =>
        var res := Cleanup(id);
        v := Undefined;
    }

    /** `fn(stream.value)`'s calls, in order, with f on top of the active stack. */
    method RunBody(f: Handle) returns (vals: seq<Value>)
      requires Valid() && active != [] && active[0] == f && f < |kinds|
      modifies this
      ensures (W(), vals) == S.RunSteps(old(W()), S.StepsOf(old(kinds)[f]), [])
      ensures kinds == old(kinds)
    {
      var steps := S.StepsOf(kinds[f]);
      assert StepsBelow(steps, f);
      vals := [];
      for i := 0 to |steps|
        invariant Valid() && active == old(active) && kinds == old(kinds)
        invariant S.RunSteps(W(), steps[i..], vals) == S.RunSteps(old(W()), steps, [])
      {
        assert StepsBelow(steps[i..], f);
        assert steps[i..][1..] == steps[i + 1..];
        var v := RunStep(steps[i]);
        vals := vals + [v];
      }
    }

    /** `cleanupChildren(stream)` for a sync computation, then
        `active.unshift(stream); fn(stream.value); active.shift()` */
    method Bracket(f: Handle) returns (vals: seq<Value>)
      requires Valid() && S.IsComputation(W(), f)
      modifies this
      ensures (W(), vals) == S.Bracket(old(W()), f)
    {
      if kinds[f].Sync? {
        CleanupChildren(f);
      }
      active := [f] + active;
      assert S.StackOfComputations(kinds, active);
      vals := RunBody(f);
      active := active[1..];
    }

    /** `stream.compute()` (lib/index.ts:223-237): the body's calls run with the
        computation on top of the active stack. */
    method Compute(f: Handle)
      requires Valid() && S.IsComputation(W(), f)
      modifies this
      ensures W() == S.Compute(old(W()), f)
    {
      var vals := Bracket(f);
      if kinds[f].Sync? {
        Publish(f, kinds[f].body.fn(value[f], vals));
      }
    }

    /** `stream.next = ...`, then the commit when idle or the deferral otherwise. */
    method Publish(f: Handle, nx: Value)
      requires Valid() && S.IsComputation(W(), f)
      modifies this
      ensures W() == S.Publish(old(W()), f, nx)
    {
      next := next[f := nx];
      if state == S.Idle {
        value := value[f := nx];
      } else {
        resolve := Insert(resolve, f);
      }
    }

    // -------------------------------------------------------------------------
    // Creating streams (lib/index.ts:158-165, 219-240, 256-308).

    /** `data(value)` */
    method NewData(v: Value) returns (h: Handle)
      requires Valid()
      modifies this
      ensures (h, W()) == S.NewData(old(W()), v)
    {
      h := |kinds|;
      Extend(S.Data, v);
    }

    /** `computation(fn)`: the new stream is computed once right away. */
    method NewComputation(body: S.Body) returns (h: Handle)
      requires Valid() && StepsBelow(body.steps, |kinds|)
      modifies this
      ensures (h, W()) == S.NewComputation(old(W()), body)
    {
      h := |kinds|;
      Extend(S.Sync(body), Undefined);
      Compute(h);
    }

    /** `generator(fn)`, up to the first suspension of its body. */
    method NewGenerator(steps: seq<Step>) returns (h: Handle)
      requires Valid() && StepsBelow(steps, |kinds|)
      modifies this
      ensures (h, W()) == S.NewGenerator(old(W()), steps)
    {
      h := |kinds|;
      Extend(S.Generator(steps), Undefined);
      Compute(h);
    }

    /** A new stream object of kind k at handle |kinds|. */
    method Extend(k: S.Kind, v: Value)
      requires Valid() && StepsBelow(S.StepsOf(k), |kinds|)
      modifies this
      ensures W() == S.Extend(old(W()), k, v)
    {
      S.ExtendValid(W(), k, v);
      kinds, value, next := kinds + [k], value + [v], next + [v];
    }

    // -------------------------------------------------------------------------
    // tick (lib/index.ts:354-395).

    /** `for (let cleanupFn of xet(cleanups, f, () => new Set())) { cleanupFn(); cleanups.get(f)!.delete(cleanupFn) }` */
    method RunCleanups(f: Handle)
      requires Valid()
      modifies this
      ensures W() == S.RunCleanups(old(W()), f)
    {
      if f !in cleanups {
        cleanups := cleanups[f := []];
        cleanupOrder := cleanupOrder + [f];
      }
      assert (W(), cleanups[f]) == S.XetCleanups(old(W()), f);
      var left, log := RunEach(cleanups[f], called);
      called, cleanups := log, cleanups[f := left];
    }

    /** One iteration of tick's loop over the snapshot. */
    method RunItem(f: Handle)
      requires Valid() && S.IsComputation(W(), f)
      modifies this
      ensures W() == S.RunItem(old(W()), f)
    {
      RunCleanups(f);
      ghost var w1 := W();
      assert w1 == S.RunCleanups(old(W()), f) && S.IsComputation(w1, f);
      if f !in doNotReCompute {
        Compute(f);
        evaluated := evaluated + 1;
      } else {
        doNotReCompute := Delete(doNotReCompute, f);
      }
    }

    /** tick's loop over the snapshot. */
    method RunAll(items: seq<Handle>)
      requires Valid() && S.AllComputations(kinds, items)
      modifies this
      ensures W() == S.RunItems(old(W()), items)
    {
      for i := 0 to |items|
        invariant Valid() && kinds == old(kinds) && S.AllComputations(kinds, items[i..])
        invariant S.RunItems(W(), items[i..]) == S.RunItems(old(W()), items)
      {
        assert items[i] in items[i..];
        assert items[i..][1..] == items[i + 1..];
        RunItem(items[i]);
      }
    }

    /** `stats.ticks++; state = 'propagating'; let items = [...toRun]; toRun.clear()` */
    method Begin() returns (items: seq<Handle>)
      requires Valid()
      modifies this
      ensures W() == S.Begin(old(W())) && items == old(toRun)
    {
      ticks, state := ticks + 1, S.Propagating;
      items := toRun;
      toRun := [];
    }

    /** The commit loop, `streamsToResolve.clear()` and `state = 'idle'`. */
    method Settle()
      requires Valid()
      modifies this
      ensures W() == S.Settle(old(W()))
    {
      var v := Commit(value, next, resolve);
      assert v == CommitValues(value, next, resolve);
      value, resolve, state := v, [], S.Idle;
    }

    /** tick up to `state = 'idle'`: run the snapshot, then commit. */
    method TickOnce()
      requires Valid() && state == S.Idle
      modifies this
      ensures W() == S.TickOnce(old(W()))
    {
      var items := Begin();
      RunAll(items);
      Settle();
    }

    /** `tick()` */
    method Tick()
      requires Valid()
      modifies this
      ensures W() == S.Tick(old(W()))
      decreases |nextTicks|, 0, 0
    {
      if state == S.Propagating || state == S.Frozen {
        return;
      }
      TickOnce();
      if nextTicks != [] {
        var d := NextTick();
        var _ := Write(d.stream, d.arg);
      }
    }

    /** `nextTicks.shift()` */
    method NextTick() returns (d: S.Deferred)
      requires Valid() && nextTicks != []
      modifies this
      ensures Valid() && (d, W()) == S.NextTick(old(W()))
    {
      d := nextTicks[0];
      nextTicks := nextTicks[1..];
    }

    // -------------------------------------------------------------------------
    // Writes (lib/index.ts:167-197).

    /** `stream.next = nextVal; streamsToResolve.add(stream)` */
    method Stage(h: Handle, nv: Value)
      requires Valid() && S.IsData(W(), h)
      modifies this
      ensures W() == S.Stage(old(W()), h, nv)
    {
      next := next[h := nv];
      resolve := Insert(resolve, h);
    }

    /** A data accessor called with an argument. */
    method Write(h: Handle, arg: Arg) returns (res: Result<Value>)
      requires Valid() && S.IsData(W(), h)
      modifies this
      ensures (res, W()) == S.Write(old(W()), h, arg)
      decreases |nextTicks|, 1, 0
    {
      if state == S.Propagating {
        nextTicks := nextTicks + [S.Deferred(h, arg)];
        return Ok(value[h]);
      }
      var nv := Apply(arg, value[h]);
      if h in resolve && nv != next[h] {
        return Err(Conflict);
      }
      Accept(h, nv);
      res := Ok(Undefined);
    }

    /** The write goes through: `stream.next = nextVal`,
        `streamsToResolve.add(stream)`, `computeDependents(stream)`, and
        `tick()` when idle. */
    method Accept(h: Handle, nv: Value)
      requires Valid() && S.IsData(W(), h) && state != S.Propagating
      modifies this
      ensures W() == S.Accept(old(W()), h, nv)
      decreases |nextTicks|, 0, 1
    {
      Stage(h, nv);
      ComputeDependents(h);
      if state == S.Idle {
        Tick();
      }
    }

    // -------------------------------------------------------------------------
    // freeze (lib/index.ts:321-332) and root's disposer (lib/index.ts:343-352).

    /** `freeze(f)`: f's writes and nested freezes run with the state frozen. */
    method Freeze(f: S.Callback) returns (res: Result<()>)
      requires Valid() && S.WritesData(kinds, f)
      modifies this
      ensures (res, W()) == S.Freeze(old(W()), f)
      decreases f, 1
    {
      if state == S.Propagating {
        return Err(FreezingWhilePropagating);
      }
      var oldState := state;
      state := S.Frozen;
      assert W() == old(W()).(state := S.Frozen);
      res := RunOps(f);
      if res.Err? {
        return;
      }
      ghost var w1 := W();
      state := oldState;
      assert W() == w1.(state := old(state));
      Tick();
      res := Ok(());
    }

    /** `f()` inside a freeze: its writes and nested freezes, one after the
        other, up to the first that throws. */
    method RunOps(f: S.Callback) returns (res: Result<()>)
      requires Valid() && state == S.Frozen && S.WritesData(kinds, f)
      modifies this
      ensures (res, W()) == S.RunOps(old(W()), f, 0)
      decreases f, 0
    {
      ghost var target := S.RunOps(W(), f, 0);
      for i := 0 to |f.ops|
        invariant Valid() && state == S.Frozen && S.WritesData(kinds, f)
        invariant S.RunOps(W(), f, i) == target
      {
        res := RunOp(f.ops[i]);
        if res.Err? {
          return;
        }
      }
      res := Ok(());
    }

    /** One call of the callback. */
    method RunOp(op: S.Op) returns (res: Result<()>)
      requires Valid() && state == S.Frozen && S.OpWritesData(kinds, op)
      modifies this
      ensures (res, W()) == S.RunOp(old(W()), op)
      decreases op, 2
    {
      match op
      case WriteOp(h, arg) =>
        var v := Write(h, arg);
        res := if v.Ok? then Ok(()) else Err(v.error);
      case FreezeOp(g) =>
        res := Freeze(g);
    }

    /** The disposer `root(f)` passes to f: every cleanup set, in Map order. */
    method Dispose()
      requires Valid()
      modifies this
      ensures W() == S.Dispose(old(W()))
    {
      var log := CallEvery(cleanups, cleanupOrder, called);
      called, cleanups, cleanupOrder := log, map[], [];
    }
  }
}
