/** The model DAG (src/core/graph.ts): Kahn's algorithm and the reachability worklist. */
module Graph {
  import opened Common
  import opened Models

  datatype ModelGraph = ModelGraph(
    models: map<Name, Model>,
    order: seq<Name>,
    dependents: map<Name, set<Name>>)

  datatype GraphError =
    | DuplicateModel(name: Name)
    | UnknownDependency(model: Name, dependency: Name)
    | DagCycle(cycle: seq<Name>)

  function Elems<T(!new)>(xs: seq<T>): (s: set<T>)
    ensures forall x :: x in s <==> x in xs
  {
    set x | x in xs
  }

  ghost predicate NoDup<T>(xs: seq<T>) {
    forall i, j | 0 <= i < j < |xs| :: xs[i] != xs[j]
  }

  lemma ElemsAppend<T(!new)>(xs: seq<T>, x: T)
    ensures Elems(xs + [x]) == Elems(xs) + {x}
  {
  }

  lemma NoDupHead<T(!new)>(x: T, rest: seq<T>)
    requires NoDup([x] + rest)
    ensures x !in rest && NoDup(rest)
  {
    var xs := [x] + rest;
    assert xs[0] == x && forall i | 0 <= i < |rest| :: rest[i] == xs[i + 1];
  }

  lemma NoDupConcat<T(!new)>(xs: seq<T>, ys: seq<T>)
    requires NoDup(xs) && NoDup(ys)
    requires forall x | x in xs :: x !in ys
    ensures NoDup(xs + ys)
  {
    forall i, j | 0 <= i < j < |xs + ys| ensures (xs + ys)[i] != (xs + ys)[j] {
      if i < |xs| <= j {
        var x := xs[i];
        assert x in xs;
      }
    }
  }

  lemma {:induction false} NoDupLength<T(!new)>(xs: seq<T>, s: set<T>)
    requires NoDup(xs) && Elems(xs) <= s
    ensures |xs| <= |s|
    ensures |xs| == |s| ==> Elems(xs) == s
  {
    if xs == [] {
      assert |s| == 0 ==> s == {};
    } else {
      var n := |xs| - 1;
      var x := xs[n];
      assert x in Elems(xs);
      forall y | y in Elems(xs[..n]) ensures y in s - {x} {
        assert y in xs;
      }
      NoDupLength(xs[..n], s - {x});
      if |xs| == |s| {
        forall y | y in s ensures y in Elems(xs) {
          if y != x { assert y in Elems(xs[..n]); }
        }
      }
    }
  }

  // ----- what "a topological order exists" means -----

  /** Every element of `order` is a node, once, after all of its dependencies. */
  ghost predicate Topological(g: Deps, order: seq<Name>) {
    && NoDup(order)
    && Elems(order) <= g.Keys
    && (forall i | 0 <= i < |order| :: DepsBefore(g, order, i))
  }

  ghost predicate DepsBefore(g: Deps, order: seq<Name>, i: int)
    requires 0 <= i < |order|
  {
    order[i] in g && g[order[i]] <= Elems(order[..i])
  }

  /** A closed walk along dependency edges. */
  ghost predicate IsCycle(g: Deps, p: seq<Name>) {
    && |p| >= 2 && p[0] == p[|p| - 1]
    && (forall x | x in p :: x in g)
    && (forall i | 0 <= i < |p| - 1 :: p[i + 1] in g[p[i]])
  }

  ghost predicate Acyclic(g: Deps) {
    forall p: seq<Name> :: !IsCycle(g, p)
  }

  // ----- Kahn's algorithm, on sets of finished dependencies -----

  /** The children of `name` whose last unfinished dependency was `name`. */
  function ReadyAmong(g: Deps, done: set<Name>, children: seq<Name>): (r: seq<Name>) {
    if children == [] then [] else
      var n := |children| - 1;
      var last := children[n];
      var init := ReadyAmong(g, done, children[..n]);
      if last in g && g[last] <= done then init + [last] else init
  }

  lemma {:induction false} ReadyMembers(g: Deps, done: set<Name>, children: seq<Name>)
    ensures forall c :: c in ReadyAmong(g, done, children) <==> c in children && c in g && g[c] <= done
    ensures NoDup(children) ==> NoDup(ReadyAmong(g, done, children))
  {
    if children != [] {
      var n := |children| - 1;
      assert children == children[..n] + [children[n]];
      ReadyMembers(g, done, children[..n]);
    }
  }

  function Children(g: Deps, name: Name): seq<Name> {
    SortedNames(set c | c in g && name in g[c])
  }

  function SortedNames(s: set<Name>): seq<Name> {
    Sorted(s)
  }

  lemma ChildrenMembers(g: Deps, name: Name)
    ensures NoDup(Children(g, name))
    ensures forall c :: c in Children(g, name) <==> c in g && name in g[c]
  {
  }

  /** Finished and queued nodes are exactly those whose dependencies are all finished. */
  ghost predicate KahnInv(g: Deps, queue: seq<Name>, order: seq<Name>) {
    && Topological(g, order)
    && NoDup(queue)
    && (forall x | x in queue :: x in g && x !in order)
    && (forall x | x in g :: g[x] <= Elems(order) <==> x in order || x in queue)
  }

  function Start(g: Deps): (queue: seq<Name>)
    ensures KahnInv(g, queue, [])
    ensures Ascending(queue) && forall x :: x in queue <==> x in g && g[x] == {}
  {
    Sorted(set x | x in g && g[x] == {})
  }

  lemma TopologicalAppend(g: Deps, order: seq<Name>, name: Name)
    requires Topological(g, order) && name in g && name !in order && g[name] <= Elems(order)
    ensures Topological(g, order + [name])
    ensures Elems(order + [name]) == Elems(order) + {name}
    ensures |order| < |g.Keys|
  {
    var order' := order + [name];
    forall i | 0 <= i < |order'| ensures DepsBefore(g, order', i) {
      if i < |order| {
        assert order'[..i] == order[..i] && DepsBefore(g, order, i);
      } else {
        assert order'[..i] == order;
      }
    }
    assert Elems(order') == Elems(order) + {name};
    NoDupLength(order', g.Keys);
  }

  lemma KahnStep(g: Deps, queue: seq<Name>, order: seq<Name>)
    requires KahnInv(g, queue, order) && queue != []
    ensures var name := queue[0];
            var order' := order + [name];
            KahnInv(g, queue[1..] + ReadyAmong(g, Elems(order'), Children(g, name)), order')
    ensures |order| < |g.Keys|
  {
    var name := queue[0];
    assert name in queue;
    TopologicalAppend(g, order, name);
    var done := Elems(order) + {name};
    assert Elems(order + [name]) == done;
    var ready := ReadyAmong(g, done, Children(g, name));
    ChildrenMembers(g, name);
    ReadyMembers(g, done, Children(g, name));
    var rest := queue[1..];
    assert queue == [name] + rest;
    QueueStep(g, queue, order, name, rest, ready);
  }

  lemma QueueStep(g: Deps, queue: seq<Name>, order: seq<Name>, name: Name, rest: seq<Name>, ready: seq<Name>)
    requires KahnInv(g, queue, order) && queue == [name] + rest && name in queue
    requires NoDup(ready)
    requires forall c :: c in ready <==> c in g && name in g[c] && g[c] <= Elems(order) + {name}
    ensures NoDup(rest + ready)
    ensures forall x | x in rest + ready :: x in g && x !in order + [name]
    ensures forall x | x in g ::
              g[x] <= Elems(order + [name]) <==> x in order + [name] || x in rest + ready
  {
    var done := Elems(order) + {name};
    assert Elems(order + [name]) == done;
    assert forall x :: x in queue <==> x == name || x in rest;
    NoDupHead(name, rest);
    assert forall x | x in rest :: x in queue;
    forall c | c in ready ensures c !in queue && c !in order {
      assert !(g[c] <= Elems(order));
    }
    NoDupConcat(rest, ready);
    forall x | x in g ensures g[x] <= done <==> x in order + [name] || x in rest + ready {
      if g[x] <= done && name !in g[x] {
        assert g[x] <= Elems(order);
      }
    }
  }

  function KahnRun(g: Deps, queue: seq<Name>, order: seq<Name>): (r: seq<Name>)
    requires KahnInv(g, queue, order)
    ensures KahnInv(g, [], r)
    decreases |g.Keys| - |order|
  {
    if queue == [] then order else
      var order' := order + [queue[0]];
      KahnStep(g, queue, order);
      KahnRun(g, queue[1..] + ReadyAmong(g, Elems(order'), Children(g, queue[0])), order')
  }

  /** The order the build produces: a function of the dependency map alone. */
  function KahnOrder(g: Deps): (r: seq<Name>)
    ensures KahnInv(g, [], r)
  {
    KahnRun(g, Start(g), [])
  }

  // ----- complete exactly when acyclic -----

  /** Along dependency edges positions in a topological order strictly decrease. */
  lemma {:induction false} CycleDescends(g: Deps, order: seq<Name>, p: seq<Name>, i: nat, k: nat) returns (l: nat)
    requires Topological(g, order) && IsCycle(g, p)
    requires i < |p| - 1 && k < |order| && order[k] == p[i]
    ensures l < k && order[l] == p[|p| - 1]
    decreases |p| - i
  {
    assert p[i + 1] in g[p[i]];
    assert DepsBefore(g, order, k);
    assert p[i + 1] in Elems(order[..k]);
    var m :| 0 <= m < k && order[m] == p[i + 1];
    if i + 1 == |p| - 1 {
      l := m;
    } else {
      l := CycleDescends(g, order, p, i + 1, m);
    }
  }

  lemma CompleteMeansAcyclic(g: Deps)
    requires |KahnOrder(g)| == |g.Keys|
    ensures Acyclic(g)
  {
    var order := KahnOrder(g);
    assert Elems(order) <= g.Keys;
    NoDupLength(order, g.Keys);
    forall p: seq<Name> ensures !IsCycle(g, p) {
      if IsCycle(g, p) {
        var x := p[0];
        assert x in p;
        assert x in Elems(order);
        var k :| 0 <= k < |order| && order[k] == x;
        var l := CycleDescends(g, order, p, 0, k);
      }
    }
  }

  /** A walk of `n` steps inside a set every member of which has a dependency in the set. */
  lemma {:induction false} WalkExists(g: Deps, stuck: set<Name>, x: Name, n: nat) returns (w: seq<Name>)
    requires stuck <= g.Keys && x in stuck
    requires forall y | y in stuck :: g[y] * stuck != {}
    ensures |w| == n + 1 && w[0] == x
    ensures Elems(w) <= stuck
    ensures forall i | 0 <= i < n :: w[i] in g && w[i + 1] in g[w[i]]
    decreases n
  {
    if n == 0 {
      w := [x];
    } else {
      var next := g[x] * stuck;
      assert next != {};
      var y := Any(next);
      var rest := WalkExists(g, stuck, y, n - 1);
      w := [x] + rest;
      assert Elems(w) == {x} + Elems(rest);
      assert forall i | 0 < i <= n :: w[i] == rest[i - 1];
    }
  }

  lemma StuckMeansCycle(g: Deps, stuck: set<Name>)
    requires stuck <= g.Keys && stuck != {}
    requires forall y | y in stuck :: g[y] * stuck != {}
    ensures !Acyclic(g)
  {
    var x := Any(stuck);
    var w := WalkExists(g, stuck, x, |stuck|);
    if NoDup(w) {
      NoDupLength(w, stuck);
    }
    var i, j :| 0 <= i < j < |w| && w[i] == w[j];
    var p := w[i..j + 1];
    assert IsCycle(g, p) by {
      assert p[0] == w[i] && p[|p| - 1] == w[j];
      forall y | y in p ensures y in g { assert y in w && y in Elems(w); }
      forall k | 0 <= k < |p| - 1 ensures p[k] in g && p[k + 1] in g[p[k]] {
        var at := i + k;
        assert p[k] == w[at] && p[k + 1] == w[at + 1];
      }
    }
  }

  lemma AcyclicMeansComplete(g: Deps)
    requires Closed(g) && Acyclic(g)
    ensures |KahnOrder(g)| == |g.Keys|
  {
    var order := KahnOrder(g);
    var stuck := g.Keys - Elems(order);
    forall y | y in stuck ensures g[y] * stuck != {} {
      assert !(g[y] <= Elems(order));
      var need := g[y];
      assert need - Elems(order) <= need * stuck;
      assert need - Elems(order) == {} ==> need <= Elems(order);
    }
    if stuck != {} {
      StuckMeansCycle(g, stuck);
    }
    assert Elems(order) == g.Keys;
    ElemsLength(order);
  }

  lemma {:induction false} ElemsLength<T(!new)>(xs: seq<T>)
    requires NoDup(xs)
    ensures |Elems(xs)| == |xs|
  {
    if xs != [] {
      var n := |xs| - 1;
      ElemsLength(xs[..n]);
      assert Elems(xs) == Elems(xs[..n]) + {xs[n]};
      assert xs[n] !in Elems(xs[..n]);
    }
  }

  /**
   * Kahn is exact: on a closed dependency map it lists every node exactly when there
   * is no cycle, and what it lists is always topologically ordered.
   */
  lemma KahnExact(g: Deps)
    requires Closed(g)
    ensures |KahnOrder(g)| == |g.Keys| <==> Acyclic(g)
    ensures Topological(g, KahnOrder(g))
    ensures Acyclic(g) ==> Elems(KahnOrder(g)) == g.Keys
  {
    if |KahnOrder(g)| == |g.Keys| { CompleteMeansAcyclic(g); }
    if Acyclic(g) { AcyclicMeansComplete(g); }
    assert Elems(KahnOrder(g)) <= g.Keys;
    if |KahnOrder(g)| == |g.Keys| { NoDupLength(KahnOrder(g), g.Keys); }
  }

  // ----- buildGraph -----

  ghost predicate UniqueNames(input: seq<Model>) {
    forall i, j | 0 <= i < j < |input| :: input[i].name != input[j].name
  }

  ghost predicate KnownDeps(input: seq<Model>) {
    forall m, d | m in input && d in m.deps :: exists k :: k in input && k.name == d
  }

  /** The dependency map of an input; with unique names it forgets the input's order. */
  function DepsOf(input: seq<Model>): Deps {
    if input == [] then map[] else
      var n := |input| - 1;
      DepsOf(input[..n])[input[n].name := input[n].deps]
  }

  /** The entry of a name is the last model of that name. */
  lemma {:induction false} DepsEntry(input: seq<Model>, x: Name)
    ensures x in DepsOf(input) ==> exists m :: m in input && m.name == x && DepsOf(input)[x] == m.deps
    ensures forall m | m in input :: m.name in DepsOf(input)
  {
    if input != [] {
      var n := |input| - 1;
      var last := input[n];
      assert input == input[..n] + [last];
      assert last in input;
      DepsEntry(input[..n], x);
      if x in DepsOf(input) && x != last.name {
        var m :| m in input[..n] && m.name == x && DepsOf(input[..n])[x] == m.deps;
        assert m in input;
      }
    }
  }

  lemma UniqueModel(input: seq<Model>, a: Model, b: Model)
    requires UniqueNames(input) && a in input && b in input && a.name == b.name
    ensures a == b
  {
  }

  lemma DepsIncluded(a: seq<Model>, b: seq<Model>, x: Name)
    requires UniqueNames(b) && (forall m :: m in a ==> m in b) && x in DepsOf(a)
    ensures x in DepsOf(b) && DepsOf(b)[x] == DepsOf(a)[x]
  {
    DepsEntry(a, x);
    DepsEntry(b, x);
    var m :| m in a && m.name == x && DepsOf(a)[x] == m.deps;
    assert m in b;
    var k :| k in b && k.name == x && DepsOf(b)[x] == k.deps;
    UniqueModel(b, m, k);
  }

  /** Reordering the models changes neither the dependency map nor, therefore, the order built. */
  lemma OrderIgnoresInputOrder(a: seq<Model>, b: seq<Model>)
    requires UniqueNames(a) && UniqueNames(b)
    requires forall m :: m in a <==> m in b
    ensures DepsOf(a) == DepsOf(b)
    ensures KahnOrder(DepsOf(a)) == KahnOrder(DepsOf(b))
  {
    forall x | x in DepsOf(a) ensures x in DepsOf(b) && DepsOf(b)[x] == DepsOf(a)[x] { DepsIncluded(a, b, x); }
    forall x | x in DepsOf(b) ensures x in DepsOf(a) { DepsIncluded(b, a, x); }
  }

  function DependentsOf(g: Deps): (r: map<Name, set<Name>>) {
    map x | x in g :: set c | c in g && x in g[c]
  }

  /** How many dependencies of a model are still unfinished. */
  function Unfinished(need: set<Name>, done: set<Name>): nat {
    |need - done|
  }

  lemma UnfinishedStep(need: set<Name>, done: set<Name>, name: Name)
    requires name !in done
    ensures Unfinished(need, done + {name}) == Unfinished(need, done) - (if name in need then 1 else 0)
    ensures Unfinished(need, done + {name}) == 0 <==> need <= done + {name}
  {
    if name in need {
      assert need - done == (need - (done + {name})) + {name};
    } else {
      assert need - (done + {name}) == need - done;
    }
    assert Unfinished(need, done + {name}) == 0 ==> need - (done + {name}) == {};
  }

  /** The counters Kahn drains: how many dependencies of each model are still unfinished. */
  ghost predicate Counters(g: Deps, inDegree: map<Name, int>, done: set<Name>) {
    inDegree.Keys == g.Keys && forall x | x in g :: inDegree[x] == Unfinished(g[x], done)
  }

  /** One pass of the inner loop: every child of `name` loses one unfinished dependency. */
  method Release(g: Deps, name: Name, ghost done: set<Name>, inDegree0: map<Name, int>)
    returns (inDegree: map<Name, int>, ready: seq<Name>)
    requires Counters(g, inDegree0, done) && name !in done
    ensures Counters(g, inDegree, done + {name})
    ensures ready == ReadyAmong(g, done + {name}, Children(g, name))
  {
    hide Counters, Children;
    inDegree, ready := inDegree0, [];
    var children := Children(g, name);
    ghost var done' := done + {name};
    StartRelease(g, inDegree, children, done, name);
    for i := 0 to |children|
      invariant PartlyReleased(g, inDegree, children, i, done, name)
      invariant ready == ReadyAmong(g, done', children[..i])
    {
      ReleaseStep(g, inDegree, children, i, done, name);
      ReadyNext(g, done', children, i);
      var child := children[i];
      var left := inDegree[child] - 1;
      inDegree := inDegree[child := left];
      if left == 0 {
        ready := ready + [child];
      }
    }
    Released(g, inDegree, children, done, name);
  }

  /** The first `i` children have been decremented, the other counters not yet. */
  ghost predicate PartlyReleased(g: Deps, inDegree: map<Name, int>, children: seq<Name>, i: nat,
                                 done: set<Name>, name: Name) {
    && name !in done && inDegree.Keys == g.Keys && i <= |children| && children == Children(g, name)
    && (forall x | x in g && name !in g[x] :: IsCounter(g, inDegree, x, done))
    && (forall k | i <= k < |children| :: IsCounter(g, inDegree, children[k], done))
    && (forall k | 0 <= k < i :: IsCounter(g, inDegree, children[k], done + {name}))
  }

  lemma StartRelease(g: Deps, inDegree: map<Name, int>, children: seq<Name>, done: set<Name>, name: Name)
    requires Counters(g, inDegree, done) && name !in done && children == Children(g, name)
    ensures PartlyReleased(g, inDegree, children, 0, done, name)
    ensures children[..0] == []
  {
    ChildrenMembers(g, name);
    forall k | 0 <= k < |children| ensures IsCounter(g, inDegree, children[k], done) {
      var child := children[k];
      assert child in children;
    }
  }

  lemma ReleaseStep(g: Deps, inDegree: map<Name, int>, children: seq<Name>, i: nat, done: set<Name>, name: Name)
    requires PartlyReleased(g, inDegree, children, i, done, name) && i < |children|
    ensures children[i] in inDegree
    ensures PartlyReleased(g, inDegree[children[i] := inDegree[children[i]] - 1], children, i + 1, done, name)
    ensures inDegree[children[i]] - 1 == 0 <==> g[children[i]] <= done + {name}
  {
    ChildrenMembers(g, name);
    var child := children[i];
    assert child in children && name in g[child];
    assert IsCounter(g, inDegree, children[i], done);
    UnfinishedStep(g[child], done, name);
    var next := inDegree[child := inDegree[child] - 1];
    assert next.Keys == g.Keys;
    forall x | x in g && name !in g[x] ensures IsCounter(g, next, x, done) {
      assert IsCounter(g, inDegree, x, done);
    }
    forall k | i + 1 <= k < |children| ensures IsCounter(g, next, children[k], done) {
      assert IsCounter(g, inDegree, children[k], done);
    }
    forall k | 0 <= k < i + 1 ensures IsCounter(g, next, children[k], done + {name}) {
      if k < i { assert IsCounter(g, inDegree, children[k], done + {name}); }
    }
  }

  lemma Released(g: Deps, inDegree: map<Name, int>, children: seq<Name>, done: set<Name>, name: Name)
    requires PartlyReleased(g, inDegree, children, |children|, done, name)
    ensures Counters(g, inDegree, done + {name})
    ensures children[..|children|] == children
  {
    ChildrenMembers(g, name);
    forall x | x in g ensures inDegree[x] == Unfinished(g[x], done + {name}) {
      if x in children {
        var k :| 0 <= k < |children| && children[k] == x;
        assert IsCounter(g, inDegree, children[k], done + {name});
      } else {
        assert IsCounter(g, inDegree, x, done);
        UnfinishedStep(g[x], done, name);
      }
    }
  }

  ghost predicate IsCounter(g: Deps, inDegree: map<Name, int>, x: Name, done: set<Name>) {
    x in g && x in inDegree && inDegree[x] == Unfinished(g[x], done)
  }

  lemma ReadyNext(g: Deps, done: set<Name>, children: seq<Name>, i: nat)
    requires i < |children| && children[i] in g
    ensures ReadyAmong(g, done, children[..i + 1])
            == ReadyAmong(g, done, children[..i]) + (if g[children[i]] <= done then [children[i]] else [])
  {
    assert children[..i + 1][..i] == children[..i];
  }

  lemma NothingDone(need: set<Name>)
    ensures Unfinished(need, Elems([])) == |need|
    ensures |need| == 0 <==> need == {}
  {
    assert need - Elems<Name>([]) == need;
  }

  lemma InitialCounters(g: Deps, inDegree: map<Name, int>)
    requires inDegree.Keys == g.Keys && forall x | x in g :: inDegree[x] == |g[x]|
    ensures Counters(g, inDegree, Elems([]))
    ensures Sorted(set x | x in inDegree && inDegree[x] == 0) == Start(g)
  {
    forall x | x in g ensures inDegree[x] == Unfinished(g[x], Elems([])) && (inDegree[x] == 0 <==> g[x] == {}) {
      NothingDone(g[x]);
    }
    SameZeros(g, inDegree);
  }

  lemma SameZeros(g: Deps, inDegree: map<Name, int>)
    requires inDegree.Keys == g.Keys && forall x | x in g :: inDegree[x] == 0 <==> g[x] == {}
    ensures Sorted(set x | x in inDegree && inDegree[x] == 0) == Start(g)
  {
    var zeros := set x | x in inDegree && inDegree[x] == 0;
    forall x ensures x in Sorted(zeros) <==> x in Start(g) {
      assert x in zeros <==> x in g && g[x] == {};
    }
    AscendingUnique(Sorted(zeros), Start(g));
  }

  /** Kahn with counters: decrementing in-degrees refines waiting for whole dependency sets. */
  method Kahn(g: Deps) returns (order: seq<Name>)
    ensures order == KahnOrder(g)
  {
    var inDegree := map x | x in g :: |g[x]|;
    InitialCounters(g, inDegree);
    var queue := Sorted(set x | x in inDegree && inDegree[x] == 0);
    order := [];
    while queue != []
      invariant KahnInv(g, queue, order)
      invariant KahnRun(g, queue, order) == KahnOrder(g)
      invariant Counters(g, inDegree, Elems(order))
      decreases |g.Keys| - |order|
    {
      var name := queue[0];
      KahnStep(g, queue, order);
      QueueHead(g, queue, order);
      ghost var done := Elems(order);
      var ready;
      inDegree, ready := Release(g, name, done, inDegree);
      queue := queue[1..] + ready;
      ElemsAppend(order, name);
      order := order + [name];
    }
  }

  lemma QueueHead(g: Deps, queue: seq<Name>, order: seq<Name>)
    requires KahnInv(g, queue, order) && queue != []
    ensures queue[0] !in order && queue[0] !in Elems(order)
  {
    var name := queue[0];
    assert name in queue;
  }

  ghost predicate Repeats(input: seq<Model>, name: Name) {
    exists i, j :: 0 <= i < j < |input| && input[i].name == name == input[j].name
  }

  method CollectModels(input: seq<Model>) returns (r: Result<map<Name, Model>, GraphError>)
    ensures r.Ok? <==> UniqueNames(input)
    ensures r.Err? ==> r.error.DuplicateModel? && Repeats(input, r.error.name)
    ensures r.Ok? ==> IsIndex(input, r.value)
  {
    var models: map<Name, Model> := map[];
    for i := 0 to |input|
      invariant UniqueNames(input[..i])
      invariant IsIndex(input[..i], models)
    {
      var model := input[i];
      assert input[..i + 1] == input[..i] + [model];
      if model.name in models {
        assert models[model.name] in input[..i];
        ghost var h :| 0 <= h < i && input[..i][h] == models[model.name];
        assert input[h].name == model.name == input[i].name;
        return Err(DuplicateModel(model.name));
      }
      models := models[model.name := model];
    }
    assert input[..|input|] == input;
    r := Ok(models);
  }

  /** The models of an input by name, and nothing else. */
  ghost predicate IsIndex(input: seq<Model>, models: map<Name, Model>) {
    && (forall m | m in input :: m.name in models && models[m.name] == m)
    && (forall x | x in models :: models[x] in input && models[x].name == x)
  }

  ghost predicate DepsKnown(m: Model, models: map<Name, Model>) {
    m.deps <= models.Keys
  }

  lemma IndexDeps(input: seq<Model>, models: map<Name, Model>)
    requires UniqueNames(input) && IsIndex(input, models)
    ensures models.Keys == DepsOf(input).Keys
    ensures forall x | x in models :: models[x].deps == DepsOf(input)[x]
    ensures KnownDeps(input) <==> forall m | m in input :: DepsKnown(m, models)
    ensures KnownDeps(input) ==> Closed(DepsOf(input))
  {
    var g := DepsOf(input);
    forall x | x in g ensures x in models && models[x].deps == g[x] {
      DepsEntry(input, x);
    }
    DepsEntry(input, 0);
    forall x | x in models ensures x in g {
      var m := models[x];
      assert m in input && m.name == x;
    }
    assert models.Keys == g.Keys;
    if KnownDeps(input) {
      forall m | m in input ensures DepsKnown(m, models) {
        assert forall d | d in m.deps :: d in models;
      }
      forall x | x in g ensures g[x] <= g.Keys {
        assert DepsKnown(models[x], models);
      }
    }
    if forall m | m in input :: DepsKnown(m, models) {
      forall m, d | m in input && d in m.deps ensures exists k :: k in input && k.name == d {
        assert DepsKnown(m, models) && models[d] in input;
      }
    }
  }

  ghost predicate DepsKnownUpTo(input: seq<Model>, models: map<Name, Model>, n: nat) {
    n <= |input| && forall k | 0 <= k < n :: DepsKnown(input[k], models)
  }

  lemma NotKnown(input: seq<Model>, models: map<Name, Model>, model: Model)
    requires UniqueNames(input) && IsIndex(input, models) && model in input && !DepsKnown(model, models)
    ensures !KnownDeps(input)
  {
    IndexDeps(input, models);
  }

  lemma AllKnown(input: seq<Model>, models: map<Name, Model>)
    requires UniqueNames(input) && IsIndex(input, models) && DepsKnownUpTo(input, models, |input|)
    ensures KnownDeps(input)
  {
    IndexDeps(input, models);
    assert forall m | m in input :: DepsKnown(m, models);
  }

  method UnknownDep(input: seq<Model>, models: map<Name, Model>) returns (r: Option<GraphError>)
    requires UniqueNames(input) && IsIndex(input, models)
    ensures r.None? <==> KnownDeps(input)
    ensures r.Some? ==>
              && r.value.UnknownDependency?
              && r.value.model in models && r.value.dependency in models[r.value.model].deps
              && r.value.dependency !in models
  {
    for i := 0 to |input|
      invariant DepsKnownUpTo(input, models, i)
    {
      var model := input[i];
      assert model in input;
      DifferenceEmpty(model.deps, models.Keys);
      var unknown := model.deps - models.Keys;
      if unknown != {} {
        NotKnown(input, models, model);
        ghost var some := Any(unknown);
        assert some in unknown;
        var d :| d in unknown;
        return Some(UnknownDependency(model.name, d));
      }
    }
    AllKnown(input, models);
    r := None;
  }

  method CycleNames(input: seq<Model>, order: seq<Name>) returns (cycle: seq<Name>)
    ensures Elems(cycle) == DepsOf(input).Keys - Elems(order)
  {
    cycle := [];
    for i := 0 to |input|
      invariant Elems(cycle) == DepsOf(input[..i]).Keys - Elems(order)
    {
      assert input[..i + 1][..i] == input[..i];
      var n := input[i].name;
      if n !in order {
        ElemsAppend(cycle, n);
        cycle := cycle + [n];
      }
    }
    assert input[..|input|] == input;
  }

  /**
   * Fails with a duplicate, an unknown dependency or a cycle exactly when there is one,
   * and otherwise returns every model in the order Kahn's algorithm fixes.
   */
  method BuildGraph(input: seq<Model>) returns (r: Result<ModelGraph, GraphError>)
    ensures r.Ok? <==> UniqueNames(input) && KnownDeps(input) && Acyclic(DepsOf(input))
    ensures r.Ok? ==>
              && r.value.order == KahnOrder(DepsOf(input))
              && Elems(r.value.order) == r.value.models.Keys
              && IsIndex(input, r.value.models)
              && r.value.dependents == DependentsOf(DepsOf(input))
    ensures r.Err? && r.error.DuplicateModel? <==> !UniqueNames(input)
    ensures r.Err? && r.error.DuplicateModel? ==> Repeats(input, r.error.name)
    ensures r.Err? && r.error.UnknownDependency? ==>
              && UniqueNames(input)
              && (exists m | m in input :: m.name == r.error.model && r.error.dependency in m.deps)
              && (forall m | m in input :: m.name != r.error.dependency)
    ensures r.Err? && r.error.DagCycle? ==>
              && UniqueNames(input) && KnownDeps(input)
              && Elems(r.error.cycle) == DepsOf(input).Keys - Elems(KahnOrder(DepsOf(input)))
  {
    var collected := CollectModels(input);
    if collected.Err? {
      return Err(collected.error);
    }
    var models := collected.value;
    IndexDeps(input, models);
    var unknown := UnknownDep(input, models);
    if unknown.Some? {
      return Err(unknown.value);
    }
    var g := DepsOf(input);
    var order := Kahn(g);
    KahnExact(g);
    if |order| != |models| {
      var cycle := CycleNames(input, order);
      return Err(DagCycle(cycle));
    }
    r := Ok(ModelGraph(models, order, DependentsOf(g)));
  }

  // ----- transitiveDependents -----

  /** A walk of one or more steps from a model to something that depends on it. */
  ghost predicate IsWalk(edges: map<Name, set<Name>>, a: Name, b: Name, p: seq<Name>) {
    && |p| >= 2 && p[0] == a && p[|p| - 1] == b
    && (forall i | 0 <= i < |p| - 1 :: p[i] in edges && p[i + 1] in edges[p[i]])
  }

  ghost predicate Reaches(edges: map<Name, set<Name>>, a: Name, b: Name) {
    exists p :: IsWalk(edges, a, b, p)
  }

  lemma ReachesStep(edges: map<Name, set<Name>>, a: Name, b: Name, c: Name)
    requires (a == b || Reaches(edges, a, b)) && b in edges && c in edges[b]
    ensures Reaches(edges, a, c)
  {
    if a == b {
      assert IsWalk(edges, a, c, [a, c]);
    } else {
      var p :| IsWalk(edges, a, b, p);
      assert IsWalk(edges, a, c, p + [c]);
    }
  }

  lemma ReachesThrough(edges: map<Name, set<Name>>, a: Name, b: Name, c: Name)
    requires Reaches(edges, a, b) && Reaches(edges, b, c)
    ensures Reaches(edges, a, c)
  {
    var p :| IsWalk(edges, a, b, p);
    var q :| IsWalk(edges, b, c, q);
    var joined := p + q[1..];
    forall i | 0 <= i < |joined| - 1 ensures joined[i] in edges && joined[i + 1] in edges[joined[i]] {
      if i >= |p| - 1 {
        assert joined[i] == q[i - |p| + 1] && joined[i + 1] == q[i - |p| + 2];
      }
    }
    assert IsWalk(edges, a, c, joined);
  }

  /** A set closed under edges that holds everything next to `a` holds all that `a` reaches. */
  lemma {:induction false} ClosedHoldsWalk(edges: map<Name, set<Name>>, a: Name, b: Name, p: seq<Name>, s: set<Name>)
    requires IsWalk(edges, a, b, p)
    requires forall x | x == a || x in s :: EdgesOf(edges, x) <= s
    ensures b in s
    decreases |p|
  {
    var c := p[1];
    assert c in EdgesOf(edges, p[0]);
    if |p| > 2 {
      assert IsWalk(edges, c, b, p[1..]);
      ClosedHoldsWalk(edges, c, b, p[1..], s);
    }
  }

  function EdgesOf(edges: map<Name, set<Name>>, x: Name): set<Name> {
    if x in edges then edges[x] else {}
  }

  /** The inner loop: children not seen before join the result and the stack. */
  method PushChildren(children: set<Name>, out0: set<Name>, stack0: seq<Name>)
    returns (out: set<Name>, ghost pushed: seq<Name>, stack: seq<Name>)
    ensures out == out0 + children
    ensures stack == stack0 + pushed && Elems(pushed) == children - out0
  {
    out, stack, pushed := out0, stack0, [];
    var todo := children;
    while todo != {}
      invariant todo <= children
      invariant out == out0 + (children - todo)
      invariant stack == stack0 + pushed && Elems(pushed) == children - todo - out0
    {
      ghost var some := Any(todo);
      assert some in todo;
      var child :| child in todo;
      todo := todo - {child};
      if child !in out {
        out := out + {child};
        stack := stack + [child];
        ElemsAppend(pushed, child);
        pushed := pushed + [child];
      }
    }
  }

  /** Everything found is reachable, and everything found but not on the stack is explored. */
  ghost predicate Exploring(edges: map<Name, set<Name>>, name: Name, out: set<Name>, open: set<Name>) {
    && open <= out + {name}
    && (forall x | x in out :: Reaches(edges, name, x))
    && (forall x | x in out + {name} && x !in open :: EdgesOf(edges, x) <= out)
  }

  lemma ExploreStep(edges: map<Name, set<Name>>, name: Name, out: set<Name>, top: Name, rest: set<Name>)
    requires Exploring(edges, name, out, rest + {top})
    ensures var found := EdgesOf(edges, top);
            Exploring(edges, name, out + found, rest + (found - out))
  {
    var found := EdgesOf(edges, top);
    forall x | x in out + found ensures Reaches(edges, name, x) {
      if x !in out { ReachesStep(edges, name, top, x); }
    }
    var open := rest + (found - out);
    forall x | x in out + found + {name} && x !in open ensures EdgesOf(edges, x) <= out + found {
      if x != top { assert x !in rest + {top}; }
    }
  }

  lemma ExploreDone(edges: map<Name, set<Name>>, name: Name, out: set<Name>)
    requires Exploring(edges, name, out, {})
    ensures forall x :: x in out <==> Reaches(edges, name, x)
  {
    forall x | Reaches(edges, name, x) ensures x in out {
      var p :| IsWalk(edges, name, x, p);
      assert forall y | y == name || y in out :: EdgesOf(edges, y) <= out;
      ClosedHoldsWalk(edges, name, x, p, out);
    }
  }

  /** The worklist returns exactly what the dependent edges reach, and it terminates. */
  method TransitiveDependents(graph: ModelGraph, name: Name) returns (out: set<Name>)
    ensures forall x :: x in out <==> Reaches(graph.dependents, name, x)
  {
    var edges := graph.dependents;
    ghost var all := set x, y | x in edges && y in edges[x] :: y;
    out := {};
    var stack := [name];
    assert Elems(stack) == {name};
    while stack != []
      invariant out <= all
      invariant Exploring(edges, name, out, Elems(stack))
      decreases |all - out|, |stack|
    {
      var top := stack[|stack| - 1];
      var rest := stack[..|stack| - 1];
      assert stack == rest + [top];
      ElemsAppend(rest, top);
      var found := EdgesOf(edges, top);
      FoundWithin(edges, top, all);
      ExploreStep(edges, name, out, top, Elems(rest));
      ghost var out0 := out;
      ghost var pushed;
      out, pushed, stack := PushChildren(found, out, rest);
      ElemsConcat(rest, pushed);
      Shrinks(all, out0, out, pushed, found);
    }
    ExploreDone(edges, name, out);
  }

  lemma FoundWithin(edges: map<Name, set<Name>>, x: Name, all: set<Name>)
    requires all == set x, y | x in edges && y in edges[x] :: y
    ensures EdgesOf(edges, x) <= all
  {
    forall y | y in EdgesOf(edges, x) ensures y in all {
      assert x in edges && y in edges[x];
    }
  }

  lemma ElemsConcat<T(!new)>(xs: seq<T>, ys: seq<T>)
    ensures Elems(xs + ys) == Elems(xs) + Elems(ys)
  {
  }

  /** Either the result grew, or nothing was pushed. */
  lemma Shrinks(all: set<Name>, out0: set<Name>, out: set<Name>, pushed: seq<Name>, found: set<Name>)
    requires out == out0 + found <= all && Elems(pushed) == found - out0
    ensures |all - out| < |all - out0| || (out == out0 && pushed == [])
  {
    if found - out0 == {} {
      DifferenceEmpty(found, out0);
      ElemsEmpty(pushed);
    } else {
      var x := Any(found - out0);
      assert x in all - out0 && x !in all - out;
      StrictSubsetIsSmaller(all - out, all - out0);
    }
  }

  lemma ElemsEmpty<T(!new)>(xs: seq<T>)
    requires Elems(xs) == {}
    ensures xs == []
  {
    NonEmptyHasMember(xs);
  }
}
