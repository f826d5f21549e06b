/** Values, write arguments, errors, insertion-ordered sets and the get-or-insert
    helper `xet`, shared by both revisions of the scheduler. */
module Common {

  /** Streams and computations are identified by integer handles. */
  type Handle = nat

  /** A cleanup callback is identified by an integer; calling it is recorded in a log. */
  type CleanupId = nat

  /** The values streams hold: JavaScript's `undefined`/`null`, or a number. */
  datatype Value = Undefined | Int(i: int)

  /** What a write accessor is called with: a plain value, or an updater function. */
  datatype Arg = Plain(v: Value) | Updater(f: Value -> Value)

  /** `typeof args[0] === 'function' ? args[0](current) : args[0]` */
  function Apply(arg: Arg, current: Value): Value
  {
    match arg
    case Plain(v) => v
    case Updater(f) => f(current)
  }

  /** The updater the repository's tests write with, `x => x - 1`. */
  function Decrement(v: Value): Value
  {
    match v
    case Int(i) => Int(i - 1)
    case Undefined => Undefined
  }

  /** The error classes of the scheduler that the model can raise. */
  datatype SError = Conflict | CleanupWithoutComputationContext | FreezingWhilePropagating

  datatype Result<T> = Ok(value: T) | Err(error: SError)

  datatype Option<T> = None | Some(value: T)

  // ---------------------------------------------------------------------------
  // A JavaScript `Set` iterates in insertion order; it is modelled as a sequence
  // without duplicates.

  ghost predicate NoDup<T>(s: seq<T>)
  {
    forall i, j | 0 <= i < j < |s| :: s[i] != s[j]
  }

  /** `set.add(x)`: appends x unless it is already there. */
  function Insert<T(==,!new)>(s: seq<T>, x: T): (r: seq<T>)
    ensures x in r && s <= r
    ensures forall y :: y in r <==> y in s || y == x
    ensures x in s ==> r == s
    ensures NoDup(s) ==> NoDup(r)
  {
    if x in s then s else s + [x]
  }

  /** `for (x of xs) set.add(x)` */
  function InsertAll<T(==,!new)>(s: seq<T>, xs: seq<T>): (r: seq<T>)
    ensures forall y :: y in r <==> y in s || y in xs
    ensures xs == [] ==> r == s
    ensures NoDup(s) ==> NoDup(r)
    decreases |xs|
  {
    if xs == [] then s else InsertAll(Insert(s, xs[0]), xs[1..])
  }

  /** `set.delete(x)`: removes x, keeping the order of the other elements. */
  function Delete<T(==,!new)>(s: seq<T>, x: T): (r: seq<T>)
    ensures forall y :: y in r <==> y in s && y != x
    ensures |r| <= |s|
    ensures x !in s ==> r == s
    ensures NoDup(s) ==> NoDup(r)
  {
    if s == [] then []
    else if s[0] == x then NoDupTail(s); Delete(s[1..], x)
    else NoDupTail(s); NoDupCons(s[0], Delete(s[1..], x)); [s[0]] + Delete(s[1..], x)
  }

  lemma NoDupTail<T>(s: seq<T>)
    requires s != []
    ensures NoDup(s) ==> NoDup(s[1..]) && s[0] !in s[1..]
  {
    if NoDup(s) {
      forall j | 0 <= j < |s[1..]| ensures s[1..][j] != s[0] {
        assert s[1..][j] == s[j + 1];
      }
    }
  }

  lemma NoDupCons<T>(a: T, t: seq<T>)
    ensures NoDup(t) && a !in t ==> NoDup([a] + t)
  {
    if NoDup(t) && a !in t {
      forall i, j | 0 <= i < j < |[a] + t| ensures ([a] + t)[i] != ([a] + t)[j] {
        if i == 0 {
          assert ([a] + t)[j] == t[j - 1];
        }
      }
    }
  }

  /** The elements of s that are in keep, in their order in s. */
  function Filter<T(==,!new)>(s: seq<T>, keep: set<T>): (r: seq<T>)
    ensures forall y :: y in r <==> y in s && y in keep
  {
    if s == [] then []
    else if s[0] in keep then [s[0]] + Filter(s[1..], keep)
    else Filter(s[1..], keep)
  }

  lemma {:induction false} FilterNothing<T(!new)>(s: seq<T>)
    ensures Filter(s, {}) == []
  {
    if s != [] {
      FilterNothing(s[1..]);
    }
  }

  /** The elements of s that are not in gone, in their order in s. */
  function Without<T(==,!new)>(s: seq<T>, gone: set<T>): (r: seq<T>)
    ensures forall y :: y in r <==> y in s && y !in gone
  {
    if s == [] then []
    else if s[0] in gone then Without(s[1..], gone)
    else [s[0]] + Without(s[1..], gone)
  }

  /** Deleting one more element from what is left. */
  lemma {:induction false} DeleteWithout<T(!new)>(s: seq<T>, gone: set<T>, x: T)
    ensures Delete(Without(s, gone), x) == Without(s, gone + {x})
  {
    if s != [] {
      DeleteWithout(s[1..], gone, x);
    }
  }

  lemma {:induction false} WithoutNothing<T(!new)>(s: seq<T>)
    ensures Without(s, {}) == s
  {
    if s != [] {
      WithoutNothing(s[1..]);
    }
  }

  /** Once everything outside keep is gone, what is left is the filter by keep. */
  lemma {:induction false} WithoutIsFilter<T(!new)>(s: seq<T>, gone: set<T>, keep: set<T>)
    requires gone !! keep
    requires forall y :: y in s && y !in keep ==> y in gone
    ensures Without(s, gone) == Filter(s, keep)
  {
    if s != [] {
      WithoutIsFilter(s[1..], gone, keep);
    }
  }

  /** Nothing is left once every element is gone. */
  lemma {:induction false} WithoutAll<T(!new)>(s: seq<T>, gone: set<T>)
    requires forall y | y in s :: y in gone
    ensures Without(s, gone) == []
  {
    if s != [] {
      assert s[0] in s;
      WithoutAll(s[1..], gone);
    }
  }

  // ---------------------------------------------------------------------------

  /** `xet(map, key, fn)`: get-or-insert. When key is present the stored value is
      returned and the map is left as it is; otherwise `fn(key)` is stored under
      key and returned. */
  function Xet<K(==), V>(m: map<K, V>, key: K, fn: K -> V): (r: (map<K, V>, V))
    ensures key in r.0 && r.0[key] == r.1
    ensures key in m ==> r.0 == m
    ensures key !in m ==> r.0 == m[key := fn(key)]
    ensures r.0.Keys == m.Keys + {key}
    ensures forall k :: k in m ==> r.0[k] == m[k]
  {
    if key in m then (m, m[key]) else (m[key := fn(key)], fn(key))
  }

  /** A second `xet` of the same key changes nothing and returns what the first returned. */
  lemma XetTwice<K, V>(m: map<K, V>, key: K, fn: K -> V, fn': K -> V)
    ensures Xet(Xet(m, key, fn).0, key, fn') == Xet(m, key, fn)
  {
  }

  /** Every call site passes `() => new Set()`. */
  function EmptySet<K, T>(k: K): seq<T>
  {
    []
  }

  // ---------------------------------------------------------------------------
  // Proof helpers about sequences. They model nothing of the scheduler; the
  // proofs call them where the solver would otherwise have to find these
  // equalities itself.

  /** Regrouping a concatenation. */
  lemma ConcatAssoc<T>(a: seq<T>, b: seq<T>, c: seq<T>)
    ensures a + b + c == a + (b + c)
  {
  }

  /** The head and the tail of a concatenation with a non-empty front. */
  lemma AppendTail<T>(a: seq<T>, b: seq<T>)
    requires a != []
    ensures (a + b)[0] == a[0] && (a + b)[1..] == a[1..] + b
  {
  }

  /** Cutting a sequence at i: the element at i, then the rest. */
  lemma SliceAt<T>(xs: seq<T>, i: nat)
    requires i < |xs|
    ensures xs[i..] == [xs[i]] + xs[i + 1..]
  {
  }

  /** What is not in xs is neither its head nor in its tail. */
  lemma TailIn<T>(xs: seq<T>)
    requires xs != []
    ensures forall x | x !in xs :: x != xs[0] && x !in xs[1..]
    ensures forall x | x in xs :: x == xs[0] || x in xs[1..]
  {
    assert xs == [xs[0]] + xs[1..];
  }

  // ---------------------------------------------------------------------------
  // Computation bodies, cleanup maps and the commit loop, as both revisions
  // of the scheduler have them.

  /** One call a computation body makes, in order: a tracked read of a stream
      accessor, a read through `sample`, or `cleanup(f)` with callback `id`. */
  datatype Step = Track(src: Handle) | Untracked(src: Handle) | OnCleanup(id: CleanupId)

  /** Every stream a body reads was created before the body's own stream. */
  ghost predicate StepsBelow(steps: seq<Step>, f: Handle)
  {
    forall i | 0 <= i < |steps| :: !steps[i].OnCleanup? ==> steps[i].src < f
  }

  /** The read edge one call records into the body's stream f. */
  function StepEdge(s: Step, f: Handle): set<(Handle, Handle)>
  {
    if s.Track? then {(s.src, f)} else {}
  }

  /** The read edges a body records: every tracked source to the body's stream. */
  function TrackedEdges(steps: seq<Step>, f: Handle): set<(Handle, Handle)>
  {
    if steps == [] then {} else StepEdge(steps[0], f) + TrackedEdges(steps[1..], f)
  }

  function StepRegistered(s: Step): set<CleanupId>
  {
    if s.OnCleanup? then {s.id} else {}
  }

  /** The cleanup callbacks a body registers. */
  function Registered(steps: seq<Step>): set<CleanupId>
  {
    if steps == [] then {} else StepRegistered(steps[0]) + Registered(steps[1..])
  }

  ghost predicate Bounded(xs: seq<Handle>, n: nat)
  {
    forall x | x in xs :: x < n
  }

  ghost predicate OrderedKeys(order: seq<Handle>, m: map<Handle, seq<CleanupId>>)
  {
    NoDup(order) && forall k :: k in order <==> k in m
  }

  /** f's cleanup set; a missing key reads as the empty set. */
  function CleanupsAt(m: map<Handle, seq<CleanupId>>, f: Handle): seq<CleanupId>
  {
    if f in m then m[f] else []
  }

  /** m' has the same keys and sets as m, except possibly at f. */
  ghost predicate SameCleanupsBut(m: map<Handle, seq<CleanupId>>, m': map<Handle, seq<CleanupId>>, f: Handle)
  {
    forall k | k != f :: (k in m' <==> k in m) && (k in m ==> m'[k] == m[k])
  }

  /** The cleanup callbacks of ks, computation by computation. */
  function AllCleanups(m: map<Handle, seq<CleanupId>>, ks: seq<Handle>): seq<CleanupId>
  {
    if ks == [] then [] else CleanupsAt(m, ks[0]) + AllCleanups(m, ks[1..])
  }

  lemma {:induction false} AllCleanupsAgree(m: map<Handle, seq<CleanupId>>, m': map<Handle, seq<CleanupId>>, f: Handle, ks: seq<Handle>)
    requires SameCleanupsBut(m, m', f)
    ensures f !in ks ==> AllCleanups(m', ks) == AllCleanups(m, ks)
  {
    if ks != [] && f !in ks {
      AllCleanupsAgree(m, m', f, ks[1..]);
    }
  }

  /** The commit loop of a tick: every stream in rs takes its pending value as
      its value (`s.value = s.next`). */
  function CommitValues(value: seq<Value>, next: seq<Value>, rs: seq<Handle>): (r: seq<Value>)
    requires |value| == |next| && Bounded(rs, |value|)
    ensures |r| == |value|
    ensures forall x | 0 <= x < |value| :: r[x] == if x in rs then next[x] else value[x]
    decreases |rs|
  {
    if rs == [] then value
    else
      assert Bounded(rs[1..], |value|) by {
        forall x | x in rs[1..] ensures x < |value| {
          assert x in rs;
        }
      }
      assert rs[0] in rs;
      CommitValues(value[rs[0] := next[rs[0]]], next, rs[1..])
  }

  lemma {:induction false} AllCleanupsMembers(m: map<Handle, seq<CleanupId>>, ks: seq<Handle>)
    ensures forall c :: c in AllCleanups(m, ks) <==> exists f :: f in ks && c in CleanupsAt(m, f)
  {
    if ks != [] {
      AllCleanupsMembers(m, ks[1..]);
      forall c | c in AllCleanups(m, ks) ensures exists f :: f in ks && c in CleanupsAt(m, f) {
        if c in CleanupsAt(m, ks[0]) {
          assert ks[0] in ks;
        } else {
          assert c in AllCleanups(m, ks[1..]);
          var f :| f in ks[1..] && c in CleanupsAt(m, f);
          assert f in ks;
        }
      }
      forall c | (exists f :: f in ks && c in CleanupsAt(m, f)) ensures c in AllCleanups(m, ks) {
        var f :| f in ks && c in CleanupsAt(m, f);
        if f != ks[0] {
          assert f in ks[1..];
        }
      }
    }
  }

  /** Calls every callback of a cleanup set in order, deleting each one from the
      set after calling it: the set ends empty and the log grows by the set. */
  method RunEach(ids: seq<CleanupId>, called: seq<CleanupId>) returns (left: seq<CleanupId>, log: seq<CleanupId>)
    ensures left == [] && log == called + ids
  {
    left, log := ids, called;
    ghost var gone: set<CleanupId> := {};
    WithoutNothing(ids);
    for i := 0 to |ids|
      invariant left == Without(ids, gone) && log == called + ids[..i]
      invariant forall j | 0 <= j < i :: ids[j] in gone
    {
      assert ids[..i + 1] == ids[..i] + [ids[i]];
      log := log + [ids[i]];
      DeleteNext(ids, gone, i);
      left := Delete(left, ids[i]);
      gone := gone + {ids[i]};
    }
    assert ids[..|ids|] == ids;
    WithoutAll(ids, gone);
  }

  /** One more deletion from a set whose first i callbacks are gone. */
  lemma DeleteNext<T(!new)>(ids: seq<T>, gone: set<T>, i: nat)
    requires i < |ids| && forall j | 0 <= j < i :: ids[j] in gone
    ensures Delete(Without(ids, gone), ids[i]) == Without(ids, gone + {ids[i]})
    ensures forall j | 0 <= j < i + 1 :: ids[j] in gone + {ids[i]}
  {
    DeleteWithout(ids, gone, ids[i]);
    forall j | 0 <= j < i + 1 ensures ids[j] in gone + {ids[i]} {
      if j < i {
        assert ids[j] in gone;
      }
    }
  }

  /** The commit loop, run over the values: `for (let s of rs) s.value = s.next`. */
  method Commit(value: seq<Value>, next: seq<Value>, rs: seq<Handle>) returns (r: seq<Value>)
    requires |value| == |next| && Bounded(rs, |value|)
    ensures |r| == |value|
    ensures forall x | 0 <= x < |value| :: r[x] == if x in rs then next[x] else value[x]
  {
    r := value;
    for i := 0 to |rs|
      invariant |r| == |value|
      invariant forall x | 0 <= x < |value| :: r[x] == if x in rs[..i] then next[x] else value[x]
    {
      assert rs[i] in rs;
      assert rs[..i + 1] == rs[..i] + [rs[i]];
      r := r[rs[i] := next[rs[i]]];
    }
    assert rs[..|rs|] == rs;
  }

  /** Calls every callback of one cleanup set, in order. */
  method CallAll(xs: seq<CleanupId>, called: seq<CleanupId>) returns (log: seq<CleanupId>)
    ensures log == called + xs
  {
    log := called;
    for j := 0 to |xs|
      invariant log == called + xs[..j]
    {
      assert xs[..j + 1] == xs[..j] + [xs[j]];
      log := log + [xs[j]];
    }
    assert xs[..|xs|] == xs;
  }

  /** `for (let xs of cleanups.values()) for (let cleanupFn of xs) cleanupFn()`,
      with ks the Map's key order. */
  method CallEvery(m: map<Handle, seq<CleanupId>>, ks: seq<Handle>, called: seq<CleanupId>) returns (log: seq<CleanupId>)
    ensures log == called + AllCleanups(m, ks)
  {
    log := called;
    for i := 0 to |ks|
      invariant log + AllCleanups(m, ks[i..]) == called + AllCleanups(m, ks)
    {
      var xs := CleanupsAt(m, ks[i]);
      assert AllCleanups(m, ks[i..]) == xs + AllCleanups(m, ks[i + 1..]) by {
        assert ks[i..][1..] == ks[i + 1..];
      }
      ConcatAssoc(log, xs, AllCleanups(m, ks[i + 1..]));
      log := CallAll(xs, log);
    }
    assert ks[|ks|..] == [];
  }
}
