/** The `dependents` graph (stream -> the computations that read it) and the
    breadth-first flood fill of `computeDependents` over it, with the facts
    about the fill that both revisions of the scheduler rely on. */
module Graph {
  import opened Common

  /** `dependents`: each stream's readers, as an insertion-ordered set. */
  type Deps = map<Handle, seq<Handle>>

  /** The readers of x; a missing key reads as the empty set. */
  function Succ(g: Deps, x: Handle): seq<Handle>
  {
    if x in g then g[x] else []
  }

  /** Every edge goes from a smaller handle to a larger one, and stays below n.
      A body may only read streams created before it, so this always holds, and
      it is what makes the flood fill (which keeps no visited set) terminate. */
  ghost predicate Upward(g: Deps, n: nat)
  {
    forall k, y | k in g && y in g[k] :: k < y < n
  }

  ghost predicate Above(ys: seq<Handle>, lo: int, n: nat)
  {
    forall i | 0 <= i < |ys| :: lo < ys[i] < n
  }

  lemma UpwardAbove(g: Deps, n: nat, x: Handle)
    requires Upward(g, n)
    ensures Above(Succ(g, x), x, n)
  {
    forall i | 0 <= i < |Succ(g, x)| ensures x < Succ(g, x)[i] < n {
      assert Succ(g, x)[i] in g[x];
    }
  }

  lemma AboveAppend(a: seq<Handle>, b: seq<Handle>, lo: int, lo': int, n: nat)
    requires Above(a, lo, n) && Above(b, lo', n) && lo <= lo'
    ensures Above(a + b, lo, n)
  {
  }

  /** g and h give the same readers to every node above lo. */
  ghost predicate AgreeAbove(g: Deps, h: Deps, lo: int)
  {
    forall k: Handle | lo < k :: Succ(g, k) == Succ(h, k)
  }

  // ---------------------------------------------------------------------------
  // Walks: the reference definition of what a flood fill must reach.

  /** p is a walk s -> p[0] -> ... -> p[|p|-1] along reader edges that does not
      pass through a leaf (a generator computation) before its last node. */
  ghost predicate Walk(g: Deps, leaves: set<Handle>, s: Handle, p: seq<Handle>)
  {
    p != [] && p[0] in Succ(g, s) && Chain(g, leaves, p)
  }

  ghost predicate Chain(g: Deps, leaves: set<Handle>, p: seq<Handle>)
  {
    p != [] && forall i | 0 <= i < |p| - 1 :: p[i] !in leaves && p[i + 1] in Succ(g, p[i])
  }

  ghost predicate Reaches(g: Deps, leaves: set<Handle>, s: Handle, c: Handle)
  {
    exists p :: Walk(g, leaves, s, p) && p[|p| - 1] == c
  }

  // ---------------------------------------------------------------------------
  // Closure: what a work list seeded with given nodes ends up marking.

  /** y itself and, unless y is a leaf, everything reachable from y. */
  function Closure(g: Deps, leaves: set<Handle>, n: nat, y: Handle): set<Handle>
    decreases n - y, 1, 0
  {
    {y} + (if y in leaves || y >= n then {} else Below(g, leaves, n, y, Succ(g, y)))
  }

  /** The closures of the elements of ys that lie strictly between x and n. */
  function Below(g: Deps, leaves: set<Handle>, n: nat, x: Handle, ys: seq<Handle>): set<Handle>
    decreases n - x, 0, |ys|
  {
    if ys == [] then {}
    else (if x < ys[0] < n then Closure(g, leaves, n, ys[0]) else {}) + Below(g, leaves, n, x, ys[1..])
  }

  function ClosureAll(g: Deps, leaves: set<Handle>, n: nat, ys: seq<Handle>): set<Handle>
  {
    if ys == [] then {} else Closure(g, leaves, n, ys[0]) + ClosureAll(g, leaves, n, ys[1..])
  }

  lemma {:induction false} ClosureAllAppend(g: Deps, leaves: set<Handle>, n: nat, a: seq<Handle>, b: seq<Handle>)
    ensures ClosureAll(g, leaves, n, a + b) == ClosureAll(g, leaves, n, a) + ClosureAll(g, leaves, n, b)
  {
    if a != [] {
      assert (a + b)[1..] == a[1..] + b;
      ClosureAllAppend(g, leaves, n, a[1..], b);
    } else {
      assert a + b == b;
    }
  }

  lemma {:induction false} BelowIsClosureAll(g: Deps, leaves: set<Handle>, n: nat, x: Handle, ys: seq<Handle>)
    requires Above(ys, x, n)
    ensures Below(g, leaves, n, x, ys) == ClosureAll(g, leaves, n, ys)
  {
    if ys != [] {
      BelowIsClosureAll(g, leaves, n, x, ys[1..]);
    }
  }

  lemma {:induction false} ClosureAgree(g: Deps, h: Deps, leaves: set<Handle>, n: nat, lo: int, y: Handle)
    requires AgreeAbove(g, h, lo) && lo < y
    ensures Closure(g, leaves, n, y) == Closure(h, leaves, n, y)
    decreases n - y, 1, 0
  {
    if !(y in leaves || y >= n) {
      assert Succ(g, y) == Succ(h, y);
      BelowAgree(g, h, leaves, n, lo, y, Succ(g, y));
    }
  }

  lemma {:induction false} BelowAgree(g: Deps, h: Deps, leaves: set<Handle>, n: nat, lo: int, x: Handle, ys: seq<Handle>)
    requires AgreeAbove(g, h, lo) && lo < x
    ensures Below(g, leaves, n, x, ys) == Below(h, leaves, n, x, ys)
    decreases n - x, 0, |ys|
  {
    if ys != [] {
      if x < ys[0] < n {
        ClosureAgree(g, h, leaves, n, lo, ys[0]);
      }
      BelowAgree(g, h, leaves, n, lo, x, ys[1..]);
    }
  }

  lemma {:induction false} ClosureAllAgree(g: Deps, h: Deps, leaves: set<Handle>, n: nat, lo: int, ys: seq<Handle>)
    requires AgreeAbove(g, h, lo) && Above(ys, lo, n)
    ensures ClosureAll(g, leaves, n, ys) == ClosureAll(h, leaves, n, ys)
  {
    if ys != [] {
      ClosureAgree(g, h, leaves, n, lo, ys[0]);
      ClosureAllAgree(g, h, leaves, n, lo, ys[1..]);
    }
  }

  // ---------------------------------------------------------------------------
  // Paths: the termination measure of the flood fill. Every edge a visit pushes
  // replaces one walk by strictly shorter ones.

  /** The number of walks that start at x and stay below n, the empty one included. */
  function Paths(g: Deps, n: nat, x: Handle): nat
    decreases n - x, 1, 0
  {
    if x >= n then 1 else 1 + SumPaths(g, n, x, Succ(g, x))
  }

  function SumPaths(g: Deps, n: nat, x: Handle, ys: seq<Handle>): nat
    decreases n - x, 0, |ys|
  {
    if ys == [] then 0
    else (if x < ys[0] < n then Paths(g, n, ys[0]) else 0) + SumPaths(g, n, x, ys[1..])
  }

  function PathTotal(g: Deps, n: nat, ys: seq<Handle>): nat
  {
    if ys == [] then 0 else Paths(g, n, ys[0]) + PathTotal(g, n, ys[1..])
  }

  lemma {:induction false} PathTotalAppend(g: Deps, n: nat, a: seq<Handle>, b: seq<Handle>)
    ensures PathTotal(g, n, a + b) == PathTotal(g, n, a) + PathTotal(g, n, b)
  {
    if a != [] {
      assert (a + b)[1..] == a[1..] + b;
      PathTotalAppend(g, n, a[1..], b);
    } else {
      assert a + b == b;
    }
  }

  lemma {:induction false} SumPathsIsTotal(g: Deps, n: nat, x: Handle, ys: seq<Handle>)
    requires Above(ys, x, n)
    ensures SumPaths(g, n, x, ys) == PathTotal(g, n, ys)
  {
    if ys != [] {
      SumPathsIsTotal(g, n, x, ys[1..]);
    }
  }

  lemma {:induction false} PathsAgree(g: Deps, h: Deps, n: nat, lo: int, x: Handle)
    requires AgreeAbove(g, h, lo) && lo < x
    ensures Paths(g, n, x) == Paths(h, n, x)
    decreases n - x, 1, 0
  {
    if x < n {
      assert Succ(g, x) == Succ(h, x);
      SumPathsAgree(g, h, n, lo, x, Succ(g, x));
    }
  }

  lemma {:induction false} SumPathsAgree(g: Deps, h: Deps, n: nat, lo: int, x: Handle, ys: seq<Handle>)
    requires AgreeAbove(g, h, lo) && lo < x
    ensures SumPaths(g, n, x, ys) == SumPaths(h, n, x, ys)
    decreases n - x, 0, |ys|
  {
    if ys != [] {
      if x < ys[0] < n {
        PathsAgree(g, h, n, lo, ys[0]);
      }
      SumPathsAgree(g, h, n, lo, x, ys[1..]);
    }
  }

  lemma {:induction false} PathTotalAgree(g: Deps, h: Deps, n: nat, lo: int, ys: seq<Handle>)
    requires AgreeAbove(g, h, lo) && Above(ys, lo, n)
    ensures PathTotal(g, n, ys) == PathTotal(h, n, ys)
  {
    if ys != [] {
      PathsAgree(g, h, n, lo, ys[0]);
      PathTotalAgree(g, h, n, lo, ys[1..]);
    }
  }

  // ---------------------------------------------------------------------------
  // The flood fill of `computeDependents(s)`.

  /** Visiting a non-generator x: `stack.push(...xet(dependents, x, ...))` and
      `dependents.get(s).delete(x)`. Returns the new graph and the readers pushed. */
  function Visit(g: Deps, s: Handle, x: Handle): (r: (Deps, seq<Handle>))
    requires s in g
  {
    var (g1, xs) := Xet(g, x, EmptySet);
    (g1[s := Delete(g1[s], x)], xs)
  }

  lemma VisitFacts(g: Deps, n: nat, s: Handle, x: Handle)
    requires Upward(g, n) && s in g && s < x
    ensures Upward(Visit(g, s, x).0, n)
    ensures Visit(g, s, x).1 == Succ(g, x)
    ensures Visit(g, s, x).0.Keys == g.Keys + {x}
    ensures forall k | k in g && k != s :: Visit(g, s, x).0[k] == g[k]
    ensures forall k: Handle | k != s :: Succ(Visit(g, s, x).0, k) == Succ(g, k)
    ensures Visit(g, s, x).0[s] == Delete(g[s], x)
  {
  }

  /** The work-list loop of `computeDependents(s)`: shift x off the stack; unless
      x is a generator, push its readers and delete x from s's readers; add x to
      toRun. There is no visited set: a computation reachable along several walks
      is visited once per walk. */
  function Flood(g: Deps, leaves: set<Handle>, n: nat, s: Handle, stack: seq<Handle>, toRun: seq<Handle>): (r: (Deps, seq<Handle>))
    requires Upward(g, n) && s in g && Above(stack, s, n)
    decreases PathTotal(g, n, stack)
  {
    if stack == [] then (g, toRun)
    else
      var x := stack[0];
      assert x in stack;
      if x !in leaves then
        var (g', xs) := Visit(g, s, x);
        VisitFacts(g, n, s, x);
        FloodMeasure(g, n, s, stack);
        Flood(g', leaves, n, s, stack[1..] + xs, Insert(toRun, x))
      else
        Flood(g, leaves, n, s, stack[1..], Insert(toRun, x))
  }

  lemma FloodMeasure(g: Deps, n: nat, s: Handle, stack: seq<Handle>)
    requires Upward(g, n) && s in g && Above(stack, s, n) && stack != []
    ensures Above(stack[1..] + Visit(g, s, stack[0]).1, s, n)
    ensures PathTotal(Visit(g, s, stack[0]).0, n, stack[1..] + Visit(g, s, stack[0]).1) < PathTotal(g, n, stack)
  {
    var x := stack[0];
    VisitFacts(g, n, s, x);
    var r := Visit(g, s, x);
    var g', xs := r.0, r.1;
    UpwardAbove(g, n, x);
    AboveAppend(stack[1..], xs, s, x, n);
    assert AgreeAbove(g, g', s);
    PathTotalAgree(g, g', n, s, stack[1..] + xs);
    PathTotalAppend(g, n, stack[1..], xs);
    SumPathsIsTotal(g, n, x, xs);
    assert Paths(g, n, x) == 1 + SumPaths(g, n, x, xs);
  }

  /** `computeDependents(s)` on the graph and on toRun. */
  function ComputeDependents(g: Deps, leaves: set<Handle>, n: nat, s: Handle, toRun: seq<Handle>): (r: (Deps, seq<Handle>))
    requires Upward(g, n)
  {
    var (g1, stack) := Xet(g, s, EmptySet);
    UpwardAbove(g, n, s);
    Flood(g1, leaves, n, s, stack, toRun)
  }

  // ---------------------------------------------------------------------------
  // What the flood fill computes.

  lemma {:induction false} FloodToRun(g: Deps, leaves: set<Handle>, n: nat, s: Handle, stack: seq<Handle>, toRun: seq<Handle>)
    requires Upward(g, n) && s in g && Above(stack, s, n)
    ensures toRun <= Flood(g, leaves, n, s, stack, toRun).1
    ensures NoDup(toRun) ==> NoDup(Flood(g, leaves, n, s, stack, toRun).1)
    ensures forall c :: c in Flood(g, leaves, n, s, stack, toRun).1 <==> c in toRun || c in ClosureAll(g, leaves, n, stack)
    decreases PathTotal(g, n, stack)
  {
    if stack != [] {
      var x := stack[0];
      var toRun' := Insert(toRun, x);
      if x !in leaves {
        var (g', xs) := Visit(g, s, x);
        VisitFacts(g, n, s, x);
        FloodMeasure(g, n, s, stack);
        FloodToRun(g', leaves, n, s, stack[1..] + xs, toRun');
        assert AgreeAbove(g, g', s);
        ClosureAllAgree(g, g', leaves, n, s, stack[1..] + xs);
        ClosureAllAppend(g, leaves, n, stack[1..], xs);
        UpwardAbove(g, n, x);
        BelowIsClosureAll(g, leaves, n, x, xs);
      } else {
        FloodToRun(g, leaves, n, s, stack[1..], toRun');
      }
    }
  }

  lemma {:induction false} FloodGraph(g: Deps, leaves: set<Handle>, n: nat, s: Handle, stack: seq<Handle>, toRun: seq<Handle>)
    requires Upward(g, n) && s in g && Above(stack, s, n)
    ensures Upward(Flood(g, leaves, n, s, stack, toRun).0, n)
    ensures g.Keys <= Flood(g, leaves, n, s, stack, toRun).0.Keys
    ensures forall k | k in g && k != s :: Flood(g, leaves, n, s, stack, toRun).0[k] == g[k]
    ensures forall k: Handle | k != s :: Succ(Flood(g, leaves, n, s, stack, toRun).0, k) == Succ(g, k)
    decreases PathTotal(g, n, stack)
  {
    if stack != [] {
      var x := stack[0];
      if x !in leaves {
        var (g', xs) := Visit(g, s, x);
        VisitFacts(g, n, s, x);
        FloodMeasure(g, n, s, stack);
        FloodGraph(g', leaves, n, s, stack[1..] + xs, Insert(toRun, x));
      } else {
        FloodGraph(g, leaves, n, s, stack[1..], Insert(toRun, x));
      }
    }
  }

  /** s's own reader set: every non-generator in the initial list L is visited and
      deleted, every generator stays. V is what has been deleted so far. */
  lemma {:induction false} FloodSource(g: Deps, leaves: set<Handle>, n: nat, s: Handle, stack: seq<Handle>, toRun: seq<Handle>, L: seq<Handle>, V: set<Handle>)
    requires Upward(g, n) && s in g && Above(stack, s, n)
    requires g[s] == Without(L, V) && V !! leaves
    requires forall y | y in L :: y in leaves || y in V || y in stack
    ensures Succ(Flood(g, leaves, n, s, stack, toRun).0, s) == Filter(L, leaves)
    decreases PathTotal(g, n, stack)
  {
    if stack == [] {
      WithoutIsFilter(L, V, leaves);
    } else {
      var x := stack[0];
      if x !in leaves {
        var (g', xs) := Visit(g, s, x);
        VisitFacts(g, n, s, x);
        FloodMeasure(g, n, s, stack);
        DeleteWithout(L, V, x);
        forall y | y in L ensures y in leaves || y in V + {x} || y in stack[1..] + xs {
          if y in stack && y != x {
            assert y in stack[1..];
          }
        }
        FloodSource(g', leaves, n, s, stack[1..] + xs, Insert(toRun, x), L, V + {x});
      } else {
        forall y | y in L ensures y in leaves || y in V || y in stack[1..] {
          if y in stack && y != x {
            assert y in stack[1..];
          }
        }
        FloodSource(g, leaves, n, s, stack[1..], Insert(toRun, x), L, V);
      }
    }
  }

  // ---------------------------------------------------------------------------
  // Closure agrees with walks.

  lemma {:induction false} ClosureInBelow(g: Deps, leaves: set<Handle>, n: nat, x: Handle, ys: seq<Handle>, y: Handle)
    requires y in ys && x < y < n
    ensures Closure(g, leaves, n, y) <= Below(g, leaves, n, x, ys)
  {
    if ys[0] != y {
      ClosureInBelow(g, leaves, n, x, ys[1..], y);
    }
  }

  lemma {:induction false} ChainInClosure(g: Deps, leaves: set<Handle>, n: nat, p: seq<Handle>)
    requires Upward(g, n) && Chain(g, leaves, p) && p[0] < n
    ensures p[|p| - 1] in Closure(g, leaves, n, p[0])
  {
    if |p| > 1 {
      var q := p[1..];
      assert p[1] in Succ(g, p[0]) && p[0] !in leaves;
      UpwardAbove(g, n, p[0]);
      assert Chain(g, leaves, q) by {
        forall i | 0 <= i < |q| - 1 ensures q[i] !in leaves && q[i + 1] in Succ(g, q[i]) {
          assert q[i] == p[i + 1] && q[i + 1] == p[i + 2];
        }
      }
      ChainInClosure(g, leaves, n, q);
      ClosureInBelow(g, leaves, n, p[0], Succ(g, p[0]), p[1]);
    }
  }

  lemma {:induction false} ClosureChain(g: Deps, leaves: set<Handle>, n: nat, y: Handle, c: Handle) returns (p: seq<Handle>)
    requires c in Closure(g, leaves, n, y)
    ensures Chain(g, leaves, p) && p[0] == y && p[|p| - 1] == c
    decreases n - y, 1, 0
  {
    if c == y {
      p := [y];
    } else {
      var ys := Succ(g, y);
      var z, q := BelowChain(g, leaves, n, y, ys, c);
      p := [y] + q;
      forall i | 0 <= i < |p| - 1 ensures p[i] !in leaves && p[i + 1] in Succ(g, p[i]) {
        if i > 0 {
          assert p[i] == q[i - 1] && p[i + 1] == q[i];
        }
      }
    }
  }

  lemma {:induction false} BelowChain(g: Deps, leaves: set<Handle>, n: nat, x: Handle, ys: seq<Handle>, c: Handle) returns (y: Handle, p: seq<Handle>)
    requires c in Below(g, leaves, n, x, ys)
    ensures y in ys && x < y < n
    ensures Chain(g, leaves, p) && p[0] == y && p[|p| - 1] == c
    decreases n - x, 0, |ys|
  {
    if x < ys[0] < n && c in Closure(g, leaves, n, ys[0]) {
      y := ys[0];
      p := ClosureChain(g, leaves, n, y, c);
    } else {
      y, p := BelowChain(g, leaves, n, x, ys[1..], c);
    }
  }

  /** The closure below s is exactly the set of nodes that some walk from s reaches. */
  lemma ReachesIffBelow(g: Deps, leaves: set<Handle>, n: nat, s: Handle, c: Handle)
    requires Upward(g, n)
    ensures c in Below(g, leaves, n, s, Succ(g, s)) <==> Reaches(g, leaves, s, c)
  {
    UpwardAbove(g, n, s);
    if c in Below(g, leaves, n, s, Succ(g, s)) {
      var y, p := BelowChain(g, leaves, n, s, Succ(g, s), c);
      assert Walk(g, leaves, s, p);
    }
    if Reaches(g, leaves, s, c) {
      var p :| Walk(g, leaves, s, p) && p[|p| - 1] == c;
      assert p[0] in Succ(g, s);
      ChainInClosure(g, leaves, n, p);
      ClosureInBelow(g, leaves, n, s, Succ(g, s), p[0]);
    }
  }

  /** `computeDependents(s)`: toRun only grows, at its end, and afterwards holds
      exactly what it held plus every computation a walk from s reaches (a walk
      stops at a generator); s keeps only its generator readers; every other
      node keeps its readers. */
  lemma ComputeDependentsFacts(g: Deps, leaves: set<Handle>, n: nat, s: Handle, toRun: seq<Handle>)
    requires Upward(g, n)
    ensures var r := ComputeDependents(g, leaves, n, s, toRun);
      && toRun <= r.1
      && (NoDup(toRun) ==> NoDup(r.1))
      && (forall c :: c in r.1 <==> c in toRun || Reaches(g, leaves, s, c))
      && Upward(r.0, n)
      && Succ(r.0, s) == Filter(Succ(g, s), leaves)
      && (forall k: Handle | k != s :: Succ(r.0, k) == Succ(g, k))
      && (forall k | k in g :: k in r.0)
      && (forall k | k in g && k != s :: r.0[k] == g[k])
  {
    var (g1, stack) := Xet(g, s, EmptySet);
    UpwardAbove(g, n, s);
    assert stack == Succ(g, s);
    FloodToRun(g1, leaves, n, s, stack, toRun);
    FloodGraph(g1, leaves, n, s, stack, toRun);
    WithoutNothing(stack);
    FloodSource(g1, leaves, n, s, stack, toRun, stack, {});
    assert AgreeAbove(g1, g, s);
    ClosureAllAgree(g1, g, leaves, n, s, stack);
    BelowIsClosureAll(g, leaves, n, s, stack);
    forall c ensures c in Below(g, leaves, n, s, Succ(g, s)) <==> Reaches(g, leaves, s, c) {
      ReachesIffBelow(g, leaves, n, s, c);
    }
  }

  /** Whatever a walk reaches is the reader of some node. */
  lemma ReachedIsReader(g: Deps, leaves: set<Handle>, s: Handle, c: Handle) returns (k: Handle)
    requires Reaches(g, leaves, s, c)
    ensures k in g && c in g[k]
  {
    var p :| Walk(g, leaves, s, p) && p[|p| - 1] == c;
    if |p| == 1 {
      k := s;
    } else {
      k := p[|p| - 2];
      assert p[|p| - 1] in Succ(g, p[|p| - 2]);
    }
  }

  // ---------------------------------------------------------------------------
  // Recording a read.

  /** `xet(dependents, stream, () => new Set()).add(reader)` */
  function AddReader(g: Deps, k: Handle, y: Handle): (r: Deps)
    ensures k in r && forall x | x in r :: x in g || x == k
    ensures forall x, z :: z in Succ(r, x) <==> z in Succ(g, x) || (x == k && z == y)
    ensures forall x | x != k :: Succ(r, x) == Succ(g, x)
    ensures Succ(r, k) == Insert(Succ(g, k), y)
  {
    var (g1, ys) := Xet(g, k, EmptySet);
    g1[k := Insert(ys, y)]
  }

  lemma AddReaderUpward(g: Deps, n: nat, k: Handle, y: Handle)
    requires Upward(g, n) && k < y < n
    ensures Upward(AddReader(g, k, y), n)
  {
    var r := AddReader(g, k, y);
    forall x, z | x in r && z in r[x] ensures x < z < n {
      assert z in Succ(r, x);
      if z != y || x != k {
        assert z in Succ(g, x);
      }
    }
  }
}
