/**
 * The dependency ordering of node types done before nodetypes.xml is
 * written: the transitive supertypes of a type, collected depth first, and
 * the in-place reordering that moves each type just after a later supertype
 * until every type follows all of its supertypes present in the list.
 *
 * The node-type manager is a map from a type name to the names returned by
 * its getSupertypes(); a type the manager cannot find is not a key.
 */
module NodeTypeOrder {

  type Graph = map<string, seq<string>>

  /** Every supertype the manager returns is itself a type the manager knows. */
  predicate Closed(g: Graph) {
    forall t, s :: t in g && s in g[t] ==> s in g
  }

  /** A path t = p[0] -> p[1] -> ... along supertype links, of at least one step. */
  predicate Chain(g: Graph, p: seq<string>) {
    |p| >= 2 && forall k :: 0 <= k < |p| - 1 ==> p[k] in g && p[k + 1] in g[p[k]]
  }

  /** `a` is reached from `t` by following supertype links at least once. */
  ghost predicate Ancestor(g: Graph, t: string, a: string) {
    exists p :: Chain(g, p) && p[0] == t && p[|p| - 1] == a
  }

  /** No type inherits from itself, directly or not (the JCR forbids it). */
  ghost predicate Acyclic(g: Graph) {
    forall p :: Chain(g, p) ==> p[0] != p[|p| - 1]
  }

  predicate Distinct(v: seq<string>) {
    forall i, j :: 0 <= i < j < |v| ==> v[i] != v[j]
  }

  predicate InGraph(g: Graph, v: seq<string>) {
    forall x :: x in v ==> x in g
  }

  /** The names in a list, as a set. */
  function Seen(acc: seq<string>): set<string> {
    set x | x in acc
  }

  lemma {:induction false} SeenDistinct(acc: seq<string>)
    requires Distinct(acc)
    ensures |Seen(acc)| == |acc|
  {
    if acc != [] {
      var init := acc[..|acc| - 1];
      SeenDistinct(init);
      assert Seen(acc) == Seen(init) + {acc[|acc| - 1]};
    }
  }

  /** A list of distinct known types is no longer than the set of known types. */
  lemma DistinctBound(g: Graph, acc: seq<string>)
    requires Distinct(acc) && InGraph(g, acc)
    ensures |acc| <= |g.Keys|
  {
    SeenDistinct(acc);
    SubsetCard(Seen(acc), g.Keys);
  }

  // ---------------------------------------------------------------------
  // getDependencies: depth-first collection of supertypes.

  /**
   * getDependencies(t, acc): appends to `acc`, depth first, every supertype of
   * `t` not already in it, each followed by its own dependencies.
   */
  function DepsOf(g: Graph, t: string, acc: seq<string>): (r: seq<string>)
    requires Closed(g) && t in g && Distinct(acc) && InGraph(g, acc)
    ensures acc <= r && Distinct(r) && InGraph(g, r)
    decreases |g.Keys| - |acc|, 1, 0
  {
    DistinctBound(g, acc);
    DepsList(g, g[t], acc)
  }

  /** The loop of getDependencies over the supertypes `ss`. */
  function DepsList(g: Graph, ss: seq<string>, acc: seq<string>): (r: seq<string>)
    requires Closed(g) && Distinct(acc) && InGraph(g, acc) && InGraph(g, ss)
    ensures acc <= r && Distinct(r) && InGraph(g, r)
    decreases |g.Keys| - |acc|, 0, |ss|
  {
    DistinctBound(g, acc);
    if ss == [] then acc
    else if ss[0] in acc then DepsList(g, ss[1..], acc)
    else
      var s := ss[0];
      assert Distinct(acc + [s]);
      DistinctBound(g, acc + [s]);
      var r1 := DepsOf(g, s, acc + [s]);
      DepsList(g, ss[1..], r1)
  }

  /** The dependency list the sort computes for a type. */
  function Dependencies(g: Graph, t: string): seq<string>
    requires Closed(g) && t in g
  {
    DepsOf(g, t, [])
  }

  lemma {:induction false} DepsOfComplete(g: Graph, t: string, acc: seq<string>)
    requires Closed(g) && t in g && Distinct(acc) && InGraph(g, acc)
    ensures forall s :: s in g[t] ==> s in DepsOf(g, t, acc)
    ensures forall y, s :: y in DepsOf(g, t, acc) && y !in acc && s in g[y] ==> s in DepsOf(g, t, acc)
    decreases |g.Keys| - |acc|, 1, 0
  {
    DepsListComplete(g, g[t], acc);
  }

  lemma {:induction false} DepsListComplete(g: Graph, ss: seq<string>, acc: seq<string>)
    requires Closed(g) && Distinct(acc) && InGraph(g, acc) && InGraph(g, ss)
    ensures forall s :: s in ss ==> s in DepsList(g, ss, acc)
    ensures forall y, s :: y in DepsList(g, ss, acc) && y !in acc && s in g[y] ==> s in DepsList(g, ss, acc)
    decreases |g.Keys| - |acc|, 0, |ss|
  {
    if ss != [] {
      if ss[0] in acc {
        DepsListComplete(g, ss[1..], acc);
        assert acc <= DepsList(g, ss[1..], acc);
      } else {
        var s := ss[0];
        assert Distinct(acc + [s]);
        DistinctBound(g, acc + [s]);
        var r1 := DepsOf(g, s, acc + [s]);
        DepsOfComplete(g, s, acc + [s]);
        DepsListComplete(g, ss[1..], r1);
        var r := DepsList(g, ss[1..], r1);
        assert r == DepsList(g, ss, acc);
        assert r1 <= r;
        forall y, s' | y in r && y !in acc && s' in g[y] ensures s' in r {
          if y !in r1 {
          } else if y == s {
            assert s' in r1;
          } else {
            assert y !in acc + [s];
            assert s' in r1;
          }
        }
        assert (acc + [s])[|acc|] == s;
        assert r1[|acc|] == s;
      }
    }
  }

  /** One supertype link followed by a path is a path. */
  lemma AncestorStep(g: Graph, t: string, s: string, y: string)
    requires t in g && s in g[t] && Ancestor(g, s, y)
    ensures Ancestor(g, t, y)
  {
    var p :| Chain(g, p) && p[0] == s && p[|p| - 1] == y;
    var q := [t] + p;
    assert forall k :: 1 <= k < |q| - 1 ==> q[k] == p[k - 1] && q[k + 1] == p[k];
    assert Chain(g, q);
  }

  lemma {:induction false} DepsOfSound(g: Graph, t: string, acc: seq<string>)
    requires Closed(g) && t in g && Distinct(acc) && InGraph(g, acc)
    ensures forall y :: y in DepsOf(g, t, acc) && y !in acc ==> Ancestor(g, t, y)
    decreases |g.Keys| - |acc|, 1, 0
  {
    DepsListSound(g, t, g[t], acc);
  }

  lemma {:induction false} DepsListSound(g: Graph, t: string, ss: seq<string>, acc: seq<string>)
    requires Closed(g) && t in g && Distinct(acc) && InGraph(g, acc) && forall s :: s in ss ==> s in g[t]
    ensures forall s :: s in ss ==> s in g
    ensures forall y :: y in DepsList(g, ss, acc) && y !in acc ==> Ancestor(g, t, y)
    decreases |g.Keys| - |acc|, 0, |ss|
  {
    if ss != [] {
      if ss[0] in acc {
        DepsListSound(g, t, ss[1..], acc);
      } else {
        var s := ss[0];
        assert Distinct(acc + [s]);
        DistinctBound(g, acc + [s]);
        var r1 := DepsOf(g, s, acc + [s]);
        DepsOfSound(g, s, acc + [s]);
        DepsListSound(g, t, ss[1..], r1);
        var r := DepsList(g, ss[1..], r1);
        assert r == DepsList(g, ss, acc);
        forall y | y in r && y !in acc ensures Ancestor(g, t, y) {
          if y !in r1 {
          } else if y == s {
            assert Chain(g, [t, s]);
          } else {
            assert y !in acc + [s];
            AncestorStep(g, t, s, y);
          }
        }
      }
    }
  }

  /** A set closed under supertype links contains every type reached from one of its members. */
  lemma {:induction false} ChainStaysInside(g: Graph, c: set<string>, p: seq<string>)
    requires Chain(g, p) && p[0] in c
    requires forall y, s :: y in c && y in g && s in g[y] ==> s in c
    ensures p[|p| - 1] in c
    decreases |p|
  {
    assert p[1] in c;
    if |p| > 2 {
      var q := p[1..];
      assert forall k :: 0 <= k < |q| ==> q[k] == p[k + 1];
      ChainStaysInside(g, c, q);
    }
  }

  /** getDependencies(t, []) collects every transitive supertype of t, each once, and nothing else. */
  lemma DependenciesExact(g: Graph, t: string)
    requires Closed(g) && t in g
    ensures Distinct(Dependencies(g, t))
    ensures forall a :: a in Dependencies(g, t) <==> Ancestor(g, t, a)
  {
    var d := Dependencies(g, t);
    DepsOfComplete(g, t, []);
    DepsOfSound(g, t, []);
    var c := Seen(d);
    forall a | Ancestor(g, t, a) ensures a in d {
      var p :| Chain(g, p) && p[0] == t && p[|p| - 1] == a;
      var q := p[1..];
      assert p[1] in g[t];
      if |q| >= 2 {
        assert forall k :: 0 <= k < |q| ==> q[k] == p[k + 1];
        ChainStaysInside(g, c, q);
      }
    }
  }

  /** With acyclic inheritance a type is never its own dependency. */
  lemma NotOwnDependency(g: Graph, t: string)
    requires Closed(g) && Acyclic(g) && t in g
    ensures t !in Dependencies(g, t)
  {
    DepsOfSound(g, t, []);
    forall y | y in Dependencies(g, t) ensures y != t {
      var p :| Chain(g, p) && p[0] == t && p[|p| - 1] == y;
    }
  }

  /** A dependency of a dependency is a dependency. */
  lemma DependencyTransitive(g: Graph, y: string, x: string, d: string)
    requires Closed(g) && y in g && x in g
    requires x in Dependencies(g, y) && d in Dependencies(g, x)
    ensures d in Dependencies(g, y)
  {
    DepsOfComplete(g, y, []);
    DepsOfSound(g, x, []);
    var c := set z | z in Dependencies(g, y);
    var p :| Chain(g, p) && p[0] == x && p[|p| - 1] == d;
    ChainStaysInside(g, c, p);
  }

  // ---------------------------------------------------------------------
  // The reordering loop.

  /** Vector.indexOf: the first index holding `x`, or -1. */
  function IndexIn(v: seq<string>, x: string): (r: int)
    ensures -1 <= r < |v|
    ensures r >= 0 ==> v[r] == x
    ensures r < 0 <==> x !in v
    ensures forall j :: 0 <= j < r ==> v[j] != x
  {
    if v == [] then -1
    else if v[0] == x then 0
    else var k := IndexIn(v[1..], x); if k < 0 then -1 else k + 1
  }

  lemma IndexOfDistinct(v: seq<string>, j: int)
    requires Distinct(v) && 0 <= j < |v|
    ensures IndexIn(v, v[j]) == j
  {
  }

  /**
   * Vector.remove(a) then Vector.add(b, x): the type at `a` is taken out and
   * put back at `b`, immediately after the element that was at `b`.
   */
  function MoveAfter(w: seq<string>, a: int, b: int): (r: seq<string>)
    requires 0 <= a < b < |w|
    ensures |r| == |w|
    ensures r[b] == w[a] && r[b - 1] == w[b]
    ensures forall k {:trigger r[k]} :: 0 <= k < a ==> r[k] == w[k]
    ensures forall k {:trigger r[k]} :: a <= k < b ==> r[k] == w[k + 1]
    ensures forall k {:trigger r[k]} :: b < k < |w| ==> r[k] == w[k]
    ensures multiset(r) == multiset(w)
    ensures Distinct(w) ==> Distinct(r)
  {
    assert w == w[..a] + [w[a]] + w[a + 1..b + 1] + w[b + 1..];
    w[..a] + w[a + 1..b + 1] + [w[a]] + w[b + 1..]
  }

  /** Where each element sits after a move. */
  lemma MovedIndex(w: seq<string>, a: int, b: int, z: string)
    requires Distinct(w) && 0 <= a < b < |w| && z in w
    ensures var p := IndexIn(w, z);
      IndexIn(MoveAfter(w, a, b), z) ==
        if p == a then b else if p < a || b < p then p else p - 1
  {
    var u := MoveAfter(w, a, b);
    var p := IndexIn(w, z);
    if p == a {
      IndexOfDistinct(u, b);
    } else if p < a || b < p {
      IndexOfDistinct(u, p);
    } else {
      assert u[p - 1] == w[p];
      IndexOfDistinct(u, p - 1);
    }
  }

  /** `y` comes after each of its dependencies present in `v`. */
  predicate After(g: Graph, v: seq<string>, y: string)
    requires Closed(g) && y in g
  {
    forall d :: d in Dependencies(g, y) && d in v ==> IndexIn(v, d) < IndexIn(v, y)
  }

  /** Every type of `v` comes after all its dependencies present in `v`. */
  predicate DependencyOrdered(g: Graph, v: seq<string>)
    requires Closed(g) && InGraph(g, v)
  {
    forall y :: y in v ==> After(g, v, y)
  }

  /** The types not yet placed after all their dependencies. */
  function Misplaced(g: Graph, v: seq<string>): set<string>
    requires Closed(g) && InGraph(g, v)
  {
    set y | y in v && !After(g, v, y)
  }

  lemma SubsetCard(a: set<string>, b: set<string>)
    requires a <= b
    ensures |a| <= |b|
    decreases a
  {
    if a != {} {
      var x :| x in a;
      SubsetCard(a - {x}, b - {x});
    }
  }

  /** Moving a type past one of its dependencies keeps every other placed type placed. */
  lemma MoveKeepsPlaced(g: Graph, w: seq<string>, a: int, b: int, y: string)
    requires Closed(g) && Acyclic(g) && InGraph(g, w) && Distinct(w)
    requires 0 <= a < b < |w| && w[b] in Dependencies(g, w[a])
    requires y in w && y != w[a] && After(g, w, y)
    ensures After(g, MoveAfter(w, a, b), y)
  {
    var u := MoveAfter(w, a, b);
    var x := w[a];
    MovedIndex(w, a, b, y);
    forall d | d in Dependencies(g, y) && d in u ensures IndexIn(u, d) < IndexIn(u, y) {
      assert d in multiset(u);
      MovedIndex(w, a, b, d);
      if d == x {
        DependencyTransitive(g, y, x, w[b]);
        assert w[b] in multiset(u);
        IndexOfDistinct(w, b);
      }
    }
  }

  lemma MoveKeepsMembers(w: seq<string>, a: int, b: int)
    requires 0 <= a < b < |w|
    ensures forall z :: z in MoveAfter(w, a, b) <==> z in w
  {
    var u := MoveAfter(w, a, b);
    forall z | z in u ensures z in w {
      assert z in multiset(u);
    }
    forall z | z in w ensures z in u {
      assert z in multiset(w);
    }
  }

  // The state of the inner loop for the type `v[i]`, in four parts.

  /** `w` rearranges `v`, leaves the prefix before `i` alone, and holds the type at `idx`. */
  ghost predicate Arranged(v: seq<string>, i: int, w: seq<string>, idx: int) {
    0 <= i < |v| && |w| == |v| && multiset(w) == multiset(v) && Distinct(w) &&
    (forall z :: z in w <==> z in v) &&
    i <= idx < |w| && w[idx] == v[i] && w[..i] == v[..i]
  }

  /** The first `k` dependencies are absent or come before index `idx`. */
  ghost predicate DepsBefore(w: seq<string>, deps: seq<string>, k: int, idx: int) {
    0 <= k <= |deps| && forall j :: 0 <= j < k ==> IndexIn(w, deps[j]) < idx
  }

  /** Whatever follows index `idx` in `w`, other than the type, followed index `i` in `v`. */
  ghost predicate Followers(v: seq<string>, i: int, w: seq<string>, idx: int) {
    0 <= i < |v| && forall z :: z != v[i] && IndexIn(w, z) > idx ==> IndexIn(v, z) > i
  }

  /** Every other type placed in `v` is placed in `w`. */
  ghost predicate KeepsPlaced(g: Graph, v: seq<string>, i: int, w: seq<string>) {
    Closed(g) && InGraph(g, v) && 0 <= i < |v| &&
    forall y :: y in v && y != v[i] && After(g, v, y) ==> After(g, w, y)
  }

  ghost predicate Relocating(g: Graph, v: seq<string>, i: int, deps: seq<string>, k: int,
                             w: seq<string>, idx: int, modified: bool)
  {
    Closed(g) && Acyclic(g) && InGraph(g, v) && Distinct(v) && 0 <= i < |v| &&
    deps == Dependencies(g, v[i]) &&
    Arranged(v, i, w, idx) && DepsBefore(w, deps, k, idx) &&
    Followers(v, i, w, idx) && KeepsPlaced(g, v, i, w) &&
    (!modified ==> w == v && idx == i) &&
    (modified ==> !After(g, v, v[i]))
  }

  lemma RelocatingStart(g: Graph, v: seq<string>, i: int)
    requires Closed(g) && Acyclic(g) && InGraph(g, v) && Distinct(v) && 0 <= i < |v|
    ensures Relocating(g, v, i, Dependencies(g, v[i]), 0, v, i, false)
  {
  }

  lemma MoveArranged(v: seq<string>, i: int, w: seq<string>, a: int, b: int)
    requires Arranged(v, i, w, a) && a < b < |w|
    ensures Arranged(v, i, MoveAfter(w, a, b), b)
  {
    MoveKeepsMembers(w, a, b);
    MovePrefix(w, a, b, i);
  }

  lemma MovePrefix(w: seq<string>, a: int, b: int, i: int)
    requires 0 <= i <= a < b < |w|
    ensures MoveAfter(w, a, b)[..i] == w[..i]
  {
  }

  /** Dependencies already before the type stay before it, and the one it moved past joins them. */
  lemma MoveKeepsDepsBefore(w: seq<string>, a: int, deps: seq<string>, k: int)
    requires Distinct(w) && 0 <= a < |w| && 0 <= k < |deps| && w[a] !in deps
    requires a < IndexIn(w, deps[k])
    requires DepsBefore(w, deps, k, a)
    ensures DepsBefore(MoveAfter(w, a, IndexIn(w, deps[k])), deps, k + 1, IndexIn(w, deps[k]))
  {
    var b := IndexIn(w, deps[k]);
    forall j | 0 <= j < k + 1 ensures IndexIn(MoveAfter(w, a, b), deps[j]) < b {
      assert deps[j] in deps;
      assert IndexIn(w, deps[j]) <= b;
      MovedBefore(w, a, b, deps[j]);
    }
  }

  /** A type other than the moved one that sat no later than `b` ends up before `b`. */
  lemma MovedBefore(w: seq<string>, a: int, b: int, z: string)
    requires Distinct(w) && 0 <= a < b < |w| && z != w[a] && IndexIn(w, z) <= b
    ensures IndexIn(MoveAfter(w, a, b), z) < b
  {
    if z in w {
      MovedIndex(w, a, b, z);
    } else {
      MoveKeepsMembers(w, a, b);
    }
  }

  /** Whatever follows the type after a move already followed it in the original list. */
  lemma MoveKeepsFollowers(v: seq<string>, i: int, w: seq<string>, a: int, b: int)
    requires Distinct(w) && 0 <= a < b < |w| && 0 <= i < |v| && w[a] == v[i]
    requires Followers(v, i, w, a)
    ensures Followers(v, i, MoveAfter(w, a, b), b)
  {
    var u := MoveAfter(w, a, b);
    MoveKeepsMembers(w, a, b);
    forall z | z != v[i] && IndexIn(u, z) > b ensures IndexIn(v, z) > i {
      MovedIndex(w, a, b, z);
    }
  }

  /** A move keeps placed every type of `v` that was placed in `v` and in `w`. */
  lemma MoveKeepsAllPlaced(g: Graph, v: seq<string>, i: int, w: seq<string>, a: int, b: int)
    requires Closed(g) && Acyclic(g) && InGraph(g, w) && Distinct(w)
    requires 0 <= a < b < |w| && w[b] in Dependencies(g, w[a])
    requires 0 <= i < |v| && w[a] == v[i] && (forall z :: z in w <==> z in v)
    requires KeepsPlaced(g, v, i, w)
    ensures KeepsPlaced(g, v, i, MoveAfter(w, a, b))
  {
    forall y | y in v && y != v[i] && After(g, v, y) ensures After(g, MoveAfter(w, a, b), y) {
      MoveKeepsPlaced(g, w, a, b, y);
    }
  }

  /** A dependency that follows the type means the type was not placed in `v`. */
  lemma MoveNeeded(g: Graph, v: seq<string>, i: int, w: seq<string>, a: int, d: string)
    requires Closed(g) && InGraph(g, v) && Distinct(v) && 0 <= i < |v|
    requires Followers(v, i, w, a) && d in Dependencies(g, v[i]) && d != v[i] && IndexIn(w, d) > a
    ensures !After(g, v, v[i])
  {
    IndexOfDistinct(v, i);
    assert IndexIn(v, d) > i;
  }

  /** The dependency `deps[k]` comes after the type: the type moves just past it. */
  lemma RelocatingMove(g: Graph, v: seq<string>, i: int, deps: seq<string>, k: int,
                       w: seq<string>, idx: int, modified: bool)
    requires Relocating(g, v, i, deps, k, w, idx, modified) && k < |deps|
    requires idx < IndexIn(w, deps[k])
    ensures Relocating(g, v, i, deps, k + 1, MoveAfter(w, idx, IndexIn(w, deps[k])), IndexIn(w, deps[k]), true)
  {
    var b := IndexIn(w, deps[k]);
    NotOwnDependency(g, v[i]);
    assert deps[k] in deps;
    MoveNeeded(g, v, i, w, idx, deps[k]);
    MoveArranged(v, i, w, idx, b);
    MoveKeepsDepsBefore(w, idx, deps, k);
    MoveKeepsFollowers(v, i, w, idx, b);
    assert InGraph(g, w);
    MoveKeepsAllPlaced(g, v, i, w, idx, b);
  }

  /** The dependency `deps[k]` is absent or already before the type: nothing moves. */
  lemma RelocatingStay(g: Graph, v: seq<string>, i: int, deps: seq<string>, k: int,
                       w: seq<string>, idx: int, modified: bool)
    requires Relocating(g, v, i, deps, k, w, idx, modified) && k < |deps|
    requires IndexIn(w, deps[k]) <= idx
    ensures Relocating(g, v, i, deps, k + 1, w, idx, modified)
  {
    NotOwnDependency(g, v[i]);
    StayDepsBefore(w, deps, k, idx);
  }

  lemma StayDepsBefore(w: seq<string>, deps: seq<string>, k: int, idx: int)
    requires DepsBefore(w, deps, k, idx) && k < |deps|
    requires 0 <= idx < |w| && w[idx] !in deps && IndexIn(w, deps[k]) <= idx
    ensures DepsBefore(w, deps, k + 1, idx)
  {
    assert deps[k] in deps;
    assert w[idx] != deps[k];
    assert IndexIn(w, deps[k]) < idx;
  }

  lemma RelocatingDone(g: Graph, v: seq<string>, i: int, deps: seq<string>,
                       w: seq<string>, idx: int, modified: bool)
    requires Relocating(g, v, i, deps, |deps|, w, idx, modified)
    ensures After(g, w, v[i])
    ensures modified == !After(g, v, v[i])
  {
    IndexOfDistinct(w, idx);
    IndexOfDistinct(v, i);
  }

  /**
   * The inner loop of the sort for the type at `i` (the loop over the result
   * of getDependencies in NodeTypeConfigurationHandler.writeData): each
   * dependency found after the type's current index moves the type to just
   * after that dependency. `modified` reports whether the type moved.
   */
  method RelocateAfterDependencies(g: Graph, v: seq<string>, i: int) returns (w: seq<string>, modified: bool)
    requires Closed(g) && Acyclic(g) && InGraph(g, v) && Distinct(v) && 0 <= i < |v|
    ensures |w| == |v| && multiset(w) == multiset(v) && Distinct(w)
    ensures w[..i] == v[..i]
    ensures After(g, w, v[i])
    ensures forall y :: y in v && y != v[i] && After(g, v, y) ==> After(g, w, y)
    ensures modified == !After(g, v, v[i])
    ensures !modified ==> w == v
  {
    var x := v[i];
    var idx := i;
    var deps := Dependencies(g, x);
    w := v;
    modified := false;
    RelocatingStart(g, v, i);
    var k := 0;
    while k < |deps|
      invariant Relocating(g, v, i, deps, k, w, idx, modified)
      decreases |deps| - k
    {
      var superIndex := IndexIn(w, deps[k]);
      if idx < superIndex {
        RelocatingMove(g, v, i, deps, k, w, idx, modified);
        w := MoveAfter(w, idx, superIndex);
        idx := superIndex;
        modified := true;
      } else {
        RelocatingStay(g, v, i, deps, k, w, idx, modified);
      }
      k := k + 1;
    }
    RelocatingDone(g, v, i, deps, w, idx, modified);
  }

  /**
   * The state of the sort loop: `v` rearranges `v0`, the types before `i`
   * are placed, and a list already in dependency order is left as it is.
   */
  ghost predicate Sorting(g: Graph, v0: seq<string>, v: seq<string>, i: int) {
    Closed(g) && Acyclic(g) && InGraph(g, v0) && InGraph(g, v) &&
    0 <= i <= |v| == |v0| && multiset(v) == multiset(v0) && Distinct(v) &&
    (forall z :: z in v <==> z in v0) &&
    (forall k :: 0 <= k < i ==> After(g, v, v[k])) &&
    (DependencyOrdered(g, v0) ==> v == v0)
  }

  /** What one call of RelocateAfterDependencies promises about `w`. */
  ghost predicate Relocated(g: Graph, v: seq<string>, i: int, w: seq<string>, modified: bool) {
    Closed(g) && InGraph(g, v) && 0 <= i < |v| &&
    |w| == |v| && multiset(w) == multiset(v) && Distinct(w) &&
    w[..i] == v[..i] &&
    (forall z :: z in w ==> z in g) &&
    After(g, w, v[i]) &&
    (forall y :: y in v && y != v[i] && After(g, v, y) ==> After(g, w, y)) &&
    modified == !After(g, v, v[i]) &&
    (!modified ==> w == v)
  }

  lemma SameMembers(v: seq<string>, w: seq<string>)
    requires multiset(w) == multiset(v)
    ensures forall z :: z in w <==> z in v
  {
    forall z | z in w ensures z in v {
      assert z in multiset(w);
    }
    forall z | z in v ensures z in w {
      assert z in multiset(v);
    }
  }

  /** A type found before `i` is found at the same index in a list with the same prefix. */
  lemma SamePrefixIndex(v: seq<string>, w: seq<string>, i: int, z: string)
    requires 0 <= i <= |v| && i <= |w| && w[..i] == v[..i] && 0 <= IndexIn(v, z) < i
    ensures IndexIn(w, z) == IndexIn(v, z)
  {
    var r := IndexIn(v, z);
    assert w[r] == v[r];
    assert forall j :: 0 <= j < r ==> w[j] == v[j];
  }

  /** A placed type of the untouched prefix stays placed. */
  lemma PrefixStaysPlaced(g: Graph, v: seq<string>, w: seq<string>, i: int, k: int)
    requires Closed(g) && InGraph(g, v) && Distinct(v) && 0 <= k < i <= |v| && i <= |w|
    requires w[..i] == v[..i] && (forall z :: z in w ==> z in v)
    requires After(g, v, v[k])
    ensures After(g, w, w[k])
  {
    assert w[k] == v[k];
    IndexOfDistinct(v, k);
    SamePrefixIndex(v, w, i, v[k]);
    forall d | d in Dependencies(g, w[k]) && d in w ensures IndexIn(w, d) < IndexIn(w, w[k]) {
      SamePrefixIndex(v, w, i, d);
    }
  }

  /** The types before `i`, untouched by the relocation, stay placed. */
  lemma SortPrefixPlaced(g: Graph, v0: seq<string>, v: seq<string>, i: int, w: seq<string>, modified: bool)
    requires Sorting(g, v0, v, i) && Relocated(g, v, i, w, modified)
    ensures forall k :: 0 <= k < i ==> After(g, w, w[k])
  {
    SameMembers(v, w);
    forall k | 0 <= k < i ensures After(g, w, w[k]) {
      PrefixStaysPlaced(g, v, w, i, k);
    }
  }

  /** A relocation that moved the type placed it and unplaced nothing. */
  lemma SortMisplacedShrinks(g: Graph, v: seq<string>, i: int, w: seq<string>)
    requires Distinct(v) && Relocated(g, v, i, w, true)
    ensures |Misplaced(g, w)| < |Misplaced(g, v)|
  {
    SameMembers(v, w);
    assert Misplaced(g, w) <= Misplaced(g, v) - {v[i]};
    SubsetCard(Misplaced(g, w), Misplaced(g, v) - {v[i]});
  }

  lemma SortStep(g: Graph, v0: seq<string>, v: seq<string>, i: int, w: seq<string>, modified: bool)
    requires Sorting(g, v0, v, i) && i < |v| && Relocated(g, v, i, w, modified)
    ensures Sorting(g, v0, w, if modified then i else i + 1)
  {
    SameMembers(v, w);
    SortPrefixPlaced(g, v0, v, i, w, modified);
    if DependencyOrdered(g, v0) {
      assert After(g, v0, v[i]);
    }
    if !modified {
      PrefixPlacedExtends(g, w, i);
    }
  }

  lemma PrefixPlacedExtends(g: Graph, w: seq<string>, i: int)
    requires Closed(g) && InGraph(g, w) && 0 <= i < |w|
    requires forall k :: 0 <= k < i ==> After(g, w, w[k])
    requires After(g, w, w[i])
    ensures forall k :: 0 <= k < i + 1 ==> After(g, w, w[k])
  {
  }

  lemma SortDone(g: Graph, v0: seq<string>, v: seq<string>)
    requires Sorting(g, v0, v, |v|)
    ensures DependencyOrdered(g, v)
  {
    forall y | y in v ensures After(g, v, y) {
      var k :| 0 <= k < |v| && v[k] == y;
    }
  }

  /**
   * The sort loop of NodeTypeConfigurationHandler.writeData: `i` advances only
   * when the type at `i` did not move. It terminates because each pass either
   * places one more type for good or advances `i`.
   */
  method SortByDependencies(g: Graph, v0: seq<string>) returns (v: seq<string>)
    requires Closed(g) && Acyclic(g) && InGraph(g, v0) && Distinct(v0)
    ensures |v| == |v0| && multiset(v) == multiset(v0) && Distinct(v)
    ensures InGraph(g, v) && DependencyOrdered(g, v)
    ensures DependencyOrdered(g, v0) ==> v == v0
  {
    v := v0;
    var i := 0;
    while i < |v|
      invariant Sorting(g, v0, v, i)
      decreases |Misplaced(g, v)|, |v| - i
    {
      var w, modified := RelocateAfterDependencies(g, v, i);
      SameMembers(v, w);
      assert Relocated(g, v, i, w, modified);
      SortStep(g, v0, v, i, w, modified);
      if modified {
        SortMisplacedShrinks(g, v, i, w);
      } else {
        i := i + 1;
      }
      v := w;
    }
    SortDone(g, v0, v);
  }
}
