/** The job an apply schedules (src/plan/executor.ts:578-583), taken from a plan's actions. */
module Schedules {
  import opened Common
  import opened Models
  import opened Query
  import opened Graph
  import opened Fingerprints
  import opened Planner
  import opened PlanFacts
  import opened Executor
  import S = Scheduler

  ghost predicate Named(models: map<Name, Model>, actions: seq<Action>) {
    forall i | 0 <= i < |actions| :: actions[i].name in models
  }

  function ModelAt(models: map<Name, Model>, actions: seq<Action>, i: nat): Model
    requires Named(models, actions) && i < |actions|
  {
    models[actions[i].name]
  }

  predicate WorksAt(models: map<Name, Model>, actions: seq<Action>, i: nat)
    requires Named(models, actions) && i < |actions|
  {
    Working(actions[i], ModelAt(models, actions, i))
  }

  /** `plan.actions.filter(...)`, as positions. */
  function WorkingUpTo(models: map<Name, Model>, actions: seq<Action>, k: nat): seq<nat>
    requires Named(models, actions) && k <= |actions|
  {
    if k == 0 then [] else
      WorkingUpTo(models, actions, k - 1) + (if WorksAt(models, actions, k - 1) then [k - 1] else [])
  }

  /** Dependencies and laziness by position, and the actions the apply runs. */
  ghost function ShapeOf(models: map<Name, Model>, actions: seq<Action>): S.PlanShape
    requires Named(models, actions)
  {
    var n := |actions|;
    S.PlanShape(
      seq(n, i requires 0 <= i < n => set h | 0 <= h < n && actions[h].name in ModelAt(models, actions, i).deps),
      (set i | 0 <= i < n && (ModelAt(models, actions, i).kind.View? || ModelAt(models, actions, i).kind.Embedded?)),
      WorkingUpTo(models, actions, n))
  }

  lemma {:induction false} WorkingExact(models: map<Name, Model>, actions: seq<Action>, k: nat)
    requires Named(models, actions) && k <= |actions|
    ensures var w := WorkingUpTo(models, actions, k);
            && (forall i: nat | i < |actions| :: i in w <==> i < k && WorksAt(models, actions, i))
            && (forall h | 0 <= h < |w| :: w[h] < k)
            && (forall h, i | 0 <= h < i < |w| :: w[h] < w[i])
  {
    if k > 0 {
      WorkingExact(models, actions, k - 1);
      var before, last := WorkingUpTo(models, actions, k - 1), if WorksAt(models, actions, k - 1) then [k - 1] else [];
      assert WorkingUpTo(models, actions, k) == before + last;
      forall i: nat | i < |actions| ensures i in before + last <==> i < k && WorksAt(models, actions, i) {
        assert i in before + last <==> i in before || i in last;
      }
    }
  }

  lemma DepsByPosition(r: Request, canon: Canon, acc: Acc, i: nat, h: nat)
    requires Planned(r, canon, acc) && |acc.actions| == |r.order| && i < |r.order| && h < |r.order|
    requires forall k | 0 <= k < |r.order| :: acc.actions[k].name == r.order[k]
    requires r.order[i] in r.models && r.order[h] in r.models[r.order[i]].deps
    ensures h < i
  {
    hide PlanUpTo;
    DepsEarlier(r.models, r.order, i);
    var d := r.order[h];
    assert d in Elems(r.order[..i]);
    var j :| 0 <= j < i && r.order[..i][j] == d;
    assert NoDup(r.order);
  }

  predicate Lazy(m: Model) {
    m.kind.View? || m.kind.Embedded?
  }

  /**
   * A plan's actions stand in topological order, and their shape is the plan's own: an edge for
   * every dependency, the views and embedded models, and the actions an apply runs.
   */
  lemma PlanHasShape(r: Request, canon: Canon, acc: Acc)
    requires Planned(r, canon, acc)
    ensures Named(r.models, acc.actions) && S.ValidShape(ShapeOf(r.models, acc.actions))
    ensures |acc.actions| == |r.order| == |ShapeOf(r.models, acc.actions).deps|
    ensures forall i: nat, h: nat | i < |acc.actions| && h < |acc.actions| ::
              h in ShapeOf(r.models, acc.actions).deps[i] <==>
                acc.actions[h].name in r.models[acc.actions[i].name].deps
    ensures forall i: nat | i < |acc.actions| ::
              && (i in ShapeOf(r.models, acc.actions).lazy <==> Lazy(r.models[acc.actions[i].name]))
              && (i in ShapeOf(r.models, acc.actions).working
                  <==> Working(acc.actions[i], r.models[acc.actions[i].name]))
    ensures forall i, h | 0 <= i < h < |acc.actions| :: acc.actions[i].name != acc.actions[h].name
  {
    hide PlanUpTo, Decide, Working, Planned;
    PlanLength(r, canon, acc);
    WorkingExact(r.models, acc.actions, |acc.actions|);
    forall i, h | 0 <= i < |r.order| && 0 <= h < |r.order| && r.order[h] in r.models[r.order[i]].deps
      ensures h < i
    {
      DepsByPosition(r, canon, acc, i, h);
    }
    ShapeDeps(r.models, acc.actions);
    OrderDistinct(r, canon, acc);
  }

  lemma ShapeDeps(models: map<Name, Model>, actions: seq<Action>)
    requires Named(models, actions)
    ensures |ShapeOf(models, actions).deps| == |actions|
    ensures forall i: nat, h: nat | i < |actions| ::
              h in ShapeOf(models, actions).deps[i] <==>
                h < |actions| && actions[h].name in models[actions[i].name].deps
    ensures forall i: nat :: i in ShapeOf(models, actions).lazy <==> i < |actions| && Lazy(models[actions[i].name])
  {
  }

  lemma OrderDistinct(r: Request, canon: Canon, acc: Acc)
    requires Planned(r, canon, acc)
    ensures forall i, h | 0 <= i < h < |r.order| :: r.order[i] != r.order[h]
  {
    hide PlanUpTo;
    assert NoDup(r.order);
  }

  // ----- the laws of the scheduler, over a plan -----

  /** The job an apply of this plan runs in `k` slots. */
  ghost function PlanJob(r: Request, canon: Canon, acc: Acc, k: nat, build: S.Builder): (j: S.Job)
    requires Planned(r, canon, acc) && k >= 1
    ensures S.Valid(j) && Named(r.models, acc.actions)
    ensures j.n == |WorkingUpTo(r.models, acc.actions, |acc.actions|)|
  {
    PlanHasShape(r, canon, acc);
    S.JobOf(ShapeOf(r.models, acc.actions), k, build)
  }

  /** The action a slot of the job runs. */
  ghost function ActionOf(r: Request, acc: Acc, i: nat): (a: Action)
    requires Named(r.models, acc.actions) && i < |WorkingUpTo(r.models, acc.actions, |acc.actions|)|
    ensures a in acc.actions && a.name in r.models && Working(a, r.models[a.name])
  {
    WorkingExact(r.models, acc.actions, |acc.actions|);
    var p := WorkingUpTo(r.models, acc.actions, |acc.actions|)[i];
    assert p in WorkingUpTo(r.models, acc.actions, |acc.actions|);
    acc.actions[p]
  }

  lemma EveryWorkingHasEntry(r: Request, acc: Acc, a: Action)
    requires Named(r.models, acc.actions) && a in acc.actions && Working(a, r.models[a.name])
    ensures exists i: nat :: i < |WorkingUpTo(r.models, acc.actions, |acc.actions|)| && ActionOf(r, acc, i) == a
  {
    hide Working;
    WorkingExact(r.models, acc.actions, |acc.actions|);
    var w := WorkingUpTo(r.models, acc.actions, |acc.actions|);
    var p: nat :| p < |acc.actions| && acc.actions[p] == a;
    assert p in w;
    var i :| 0 <= i < |w| && w[i] == p;
    assert ActionOf(r, acc, i) == a;
  }

  lemma EntriesWait(r: Request, canon: Canon, acc: Acc, k: nat, build: S.Builder, i: nat, h: nat)
    requires Planned(r, canon, acc) && k >= 1
    requires i < PlanJob(r, canon, acc, k, build).n && h < PlanJob(r, canon, acc, k, build).n
    ensures h in PlanJob(r, canon, acc, k, build).waits[i] <==>
              ActionOf(r, acc, h).name in r.models[ActionOf(r, acc, i).name].deps
  {
    hide Planned, Working, S.Resolved, S.ValidShape;
    PlanHasShape(r, canon, acc);
    WorkingExact(r.models, acc.actions, |acc.actions|);
    var w := WorkingUpTo(r.models, acc.actions, |acc.actions|);
    assert w[i] in w && w[h] in w;
  }

  /** The job has one entry for every working action, and it waits for just its working direct dependencies. */
  lemma PlanGates(r: Request, canon: Canon, acc: Acc, k: nat, build: S.Builder)
    requires Planned(r, canon, acc) && k >= 1
    ensures Named(r.models, acc.actions)
    ensures var j := PlanJob(r, canon, acc, k, build);
            forall i: nat, h: nat | i < j.n && h < j.n ::
              h in j.waits[i] <==> ActionOf(r, acc, h).name in r.models[ActionOf(r, acc, i).name].deps
    ensures forall a | a in acc.actions && Working(a, r.models[a.name]) ::
              exists i: nat :: i < PlanJob(r, canon, acc, k, build).n && ActionOf(r, acc, i) == a
  {
    hide Planned, Working, PlanJob, ActionOf;
    var j := PlanJob(r, canon, acc, k, build);
    forall i: nat, h: nat | i < j.n && h < j.n
      ensures h in j.waits[i] <==> ActionOf(r, acc, h).name in r.models[ActionOf(r, acc, i).name].deps
    {
      EntriesWait(r, canon, acc, k, build, i, h);
    }
    forall a | a in acc.actions && Working(a, r.models[a.name])
      ensures exists i: nat :: i < j.n && ActionOf(r, acc, i) == a
    {
      EveryWorkingHasEntry(r, acc, a);
    }
  }

  /** This schedule leaves the entry finished. */
  ghost predicate Finishes(j: S.Job, data: seq<S.Data>, es: seq<S.Step>, i: nat)
    requires S.Valid(j)
  {
    && i < j.n == |data| && S.Runs(j, S.Initial(j, data), es)
    && S.Run(j, S.Initial(j, data), es).status[i].Finished?
  }

  /** In every run of a plan's job a finished model has all its working direct dependencies finished. */
  lemma PlanFinishedAfterDeps(r: Request, canon: Canon, acc: Acc, k: nat, build: S.Builder, data: seq<S.Data>,
                              es: seq<S.Step>, i: nat, h: nat)
    requires Planned(r, canon, acc) && k >= 1
    requires Finishes(PlanJob(r, canon, acc, k, build), data, es, i) && h < PlanJob(r, canon, acc, k, build).n
    requires ActionOf(r, acc, h).name in r.models[ActionOf(r, acc, i).name].deps
    ensures Finishes(PlanJob(r, canon, acc, k, build), data, es, h)
  {
    hide Planned, PlanJob, ActionOf, S.Run, S.Runs;
    PlanGates(r, canon, acc, k, build);
    S.FinishedAfterParents(PlanJob(r, canon, acc, k, build), data, es, i, h);
  }

  /** One model's query reads the last through the ones between, all views or embedded. */
  ghost predicate ReadsThrough(models: map<Name, Model>, c: seq<Name>) {
    && |c| >= 2 && (forall i | 0 <= i < |c| :: c[i] in models)
    && (forall i | 0 <= i < |c| - 1 :: c[i + 1] in models[c[i]].deps)
    && (forall i | 0 < i < |c| - 1 :: Lazy(models[c[i]]))
  }

  ghost predicate Works(r: Request, acc: Acc, x: Name)
    requires Named(r.models, acc.actions)
  {
    exists a :: a in acc.actions && a.name == x && Working(a, r.models[a.name])
  }

  /** No view or embedded model that sits the apply out reads, however indirectly, what the apply writes. */
  ghost predicate NoIdleReader(r: Request, acc: Acc)
    requires Named(r.models, acc.actions)
  {
    forall c: seq<Name> | ReadsThrough(r.models, c) && Lazy(r.models[c[0]]) && !Works(r, acc, c[0]) ::
      !Works(r, acc, c[|c| - 1])
  }

  /** Then every schedule of the plan, in any number of slots, leaves what the sequential run leaves. */
  lemma PlanSequential(r: Request, canon: Canon, acc: Acc, k: nat, build: S.Builder)
    requires Planned(r, canon, acc) && k >= 1 && Named(r.models, acc.actions) && NoIdleReader(r, acc)
    ensures S.AlwaysSequential(PlanJob(r, canon, acc, k, build))
  {
    hide Planned, Working, S.Resolved, S.AlwaysSequential;
    PlanHasShape(r, canon, acc);
    var p := ShapeOf(r.models, acc.actions);
    assert S.NoIdleLazy(p) by {
      forall v: nat, x: nat | v < |p.deps| && v in p.lazy && v !in p.working && x in S.Resolved(p, v)
        ensures x !in p.working
      {
        NothingReadWorks(r, canon, acc, v, x);
      }
    }
    S.NoIdleLazySequential(p, k, build);
  }

  /** How many models run at once: one on DuckDB, else what was asked for, four by default, and at least one. */
  function Slots(duckdb: bool, wanted: Option<int>): (k: nat)
    ensures k >= 1 && (duckdb ==> k == 1)
    ensures !duckdb && wanted.Some? && wanted.value >= 1 ==> k == wanted.value
  {
    if duckdb then 1 else
      var asked := if wanted.Some? then wanted.value else 4;
      if asked > 1 then asked else 1
  }

  /** On DuckDB every plan's schedule leaves the sequential result. */
  lemma DuckDbSequential(r: Request, canon: Canon, acc: Acc, wanted: Option<int>, build: S.Builder)
    requires Planned(r, canon, acc)
    ensures S.AlwaysSequential(PlanJob(r, canon, acc, Slots(true, wanted), build))
  {
    hide Planned, S.AlwaysSequential;
    S.OneSlotIsSequential(PlanJob(r, canon, acc, Slots(true, wanted), build));
  }

  lemma WorksAtPosition(r: Request, canon: Canon, acc: Acc, i: nat)
    requires Planned(r, canon, acc) && Named(r.models, acc.actions) && i < |acc.actions|
    ensures Works(r, acc, acc.actions[i].name) <==> i in ShapeOf(r.models, acc.actions).working
  {
    hide Planned, Working, ShapeOf;
    PlanHasShape(r, canon, acc);
    var x := acc.actions[i];
    assert x in acc.actions;
    if a :| a in acc.actions && a.name == x.name && Working(a, r.models[a.name]) {
      var h :| 0 <= h < |acc.actions| && acc.actions[h] == a;
      assert h == i;
    }
  }

  lemma NothingReadWorks(r: Request, canon: Canon, acc: Acc, v: nat, x: nat)
    requires Planned(r, canon, acc) && Named(r.models, acc.actions) && NoIdleReader(r, acc)
    requires var p := ShapeOf(r.models, acc.actions);
             S.ValidShape(p) && v < |p.deps| && v in p.lazy && v !in p.working && x in S.Resolved(p, v)
    ensures x !in ShapeOf(r.models, acc.actions).working
  {
    hide Planned, Working, ShapeOf, Works, S.Resolved, S.ValidShape;
    PlanHasShape(r, canon, acc);
    var p := ShapeOf(r.models, acc.actions);
    S.ResolvedExact(p, v, x);
    var c :| S.ReadChain(p, c, v, x);
    var names := seq(|c|, i requires 0 <= i < |c| => acc.actions[c[i]].name);
    assert ReadsThrough(r.models, names);
    WorksAtPosition(r, canon, acc, v);
    WorksAtPosition(r, canon, acc, x);
    assert names[0] == acc.actions[v].name && names[|names| - 1] == acc.actions[x].name;
  }

  lemma PlanLength(r: Request, canon: Canon, acc: Acc)
    requires Planned(r, canon, acc)
    ensures |acc.actions| == |r.order|
    ensures forall k | 0 <= k < |r.order| :: acc.actions[k].name == r.order[k] && r.order[k] in r.models
  {
    hide PlanUpTo, Decide, BackfillFor;
    AccKeys(r, canon, |r.order|);
    forall k | 0 <= k < |r.order| ensures acc.actions[k].name == r.order[k] && r.order[k] in r.models {
      PlanLocal(r, canon, acc, k);
    }
  }
}
