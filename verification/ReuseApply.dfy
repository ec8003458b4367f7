/**
 * Reuse over a whole apply: if every recorded version's physics held what a rebuild of that
 * version would produce, it does afterwards, for every version but those whose inherited
 * physics the plan does not vouch for.
 */
module ReuseApply {
  import opened Common
  import opened Models
  import Intervals
  import opened Query
  import opened Graph
  import opened Fingerprints
  import opened Store
  import opened Planner
  import opened PlanFacts
  import opened Executor
  import opened Reuse

  ghost predicate Truthful(w: World, s: State, key: SnapKey) {
    key in s.snapshots ==> Content(w, s.snapshots[key].physFp) == Content(w, key.fp)
  }

  /** Every recorded version's physics holds what a rebuild of that version would produce. */
  ghost predicate PhysicsTruthful(w: World, s: State) {
    forall k | k in s.snapshots :: Content(w, s.snapshots[k].physFp) == Content(w, k.fp)
  }

  /** The model inherits nothing, or stays and is in the fragment with all it depends on. */
  ghost predicate VouchedFor(w: World, r: Request, canon: Canon, acc: Acc, p: OldProject, x: Name)
    requires Ordered(r.models, r.order) && acc.changeOf.Keys == r.models.Keys && x in r.models
  {
    || (x !in acc.reused && !acc.changeOf[x].ForwardOnly?)
    || (x in acc.reused && PlainBelow(w, r, canon, p, x) && StaysAt(r, acc, p, x))
  }

  /** The physics a plan assigns to a model it vouches for is what a rebuild would produce. */
  lemma PlannedPhysicsTruthful(w: World, r: Request, canon: Canon, acc: Acc, p: OldProject, k: nat)
    requires Setting(r, canon, acc, p) && PhysicsTruthful(w, r.store) && k < |r.order| && r.order[k] in r.models
    requires Ordered(r.models, r.order) && acc.changeOf.Keys == r.versions.Keys == r.models.Keys
    requires VouchedFor(w, r, canon, acc, p, r.order[k])
    ensures k < |acc.actions| && Content(w, acc.actions[k].physFp) == Content(w, acc.actions[k].fp)
  {
    hide Content, Extends, Decide, PlanUpTo, BackfillFor, Stays, Topological, PlainBelow, StaysAt;
    var x := r.order[k];
    PlanLocal(r, canon, acc, k);
    var d := Decide(r, acc.changeOf, acc.reused, x).value;
    if SnapKey(x, r.versions[x].fp) in r.store.snapshots {
    } else if x in acc.reused {
      ReuseShape(r, acc, x);
      ReuseSound(w, r, canon, acc, p, x);
    } else {
      OwnPhysics(r, acc, x);
    }
  }

  lemma OwnPhysics(r: Request, acc: Acc, x: Name)
    requires x in r.models && x in r.versions && Decide(r, acc.changeOf, acc.reused, x).Ok?
    requires var d := Decide(r, acc.changeOf, acc.reused, x).value; !d.reuses && !d.change.ForwardOnly?
    ensures Decide(r, acc.changeOf, acc.reused, x).value.physFp == r.versions[x].fp
  {
  }

  /** A row the store has after an apply was there with its physics, or an action recorded it. */
  ghost predicate Recorded(s: State, actions: seq<Action>, k: nat, t: State, key: SnapKey)
    requires k <= |actions| && key in t.snapshots
  {
    || (key in s.snapshots && t.snapshots[key].physFp == s.snapshots[key].physFp)
    || exists j :: 0 <= j < k && key == SnapKey(actions[j].name, actions[j].fp)
                   && t.snapshots[key].physFp == actions[j].physFp
  }

  lemma MarksKeepSnapshots(s: State, fp: Fp, batches: seq<Intervals.Interval>, step: int)
    requires step > 0
    ensures MarkBatches(s, fp, batches, step).snapshots == s.snapshots
  {
    if batches != [] { MarksKeepSnapshots(s, fp, batches[..|batches| - 1], step); }
  }

  lemma OneRecords(s: State, a: Action, m: Model, now: int, key: SnapKey)
    requires Runnable(a, m) && key in ApplyOne(s, a, m, now).snapshots
    ensures var t := ApplyOne(s, a, m, now);
            || (key in s.snapshots && t.snapshots[key].physFp == s.snapshots[key].physFp)
            || (key == SnapKey(a.name, a.fp) && t.snapshots[key].physFp == a.physFp)
  {
    hide Marked, BatchesOf, InheritedIntervals, MarkBatches;
    if Working(a, m) && m.kind.TimeRange? {
      var inherited := Marked(s, a.fp, InheritedIntervals(s, a.reusedFrom), Done);
      assert inherited.snapshots == s.snapshots by { MarkedKeeps(s, a.fp, InheritedIntervals(s, a.reusedFrom)); }
      var recorded := Upserted(inherited, SnapshotFor(a, m), now);
      MarksKeepSnapshots(recorded, a.fp, BatchesOf(a, m), Intervals.UnitMillis(m.kind.unit));
    }
  }

  lemma MarkedKeeps(s: State, fp: Fp, intervals: seq<Intervals.Interval>)
    ensures Marked(s, fp, intervals, Done).snapshots == s.snapshots
  {
  }

  lemma {:induction false} ApplyRecords(s: State, models: map<Name, Model>, actions: seq<Action>, now: int, k: nat,
                                        key: SnapKey)
    requires AllRunnable(models, actions) && k <= |actions|
    requires key in ApplyUpTo(s, models, actions, now, k).snapshots
    ensures Recorded(s, actions, k, ApplyUpTo(s, models, actions, now, k), key)
  {
    hide ApplyOne, Working;
    if k > 0 {
      var before := ApplyUpTo(s, models, actions, now, k - 1);
      var a := actions[k - 1];
      OneRecords(before, a, models[a.name], now, key);
      if key in before.snapshots {
        ApplyRecords(s, models, actions, now, k - 1, key);
        assert key == SnapKey(a.name, a.fp) || key in before.snapshots;
      }
    }
  }

  lemma PromotionKeepsPhysics(s: State, env: Env, entries: seq<Entry>, now: int, key: SnapKey)
    ensures key in Promoted(s, env, entries, now).snapshots <==> key in s.snapshots
    ensures key in s.snapshots ==> Promoted(s, env, entries, now).snapshots[key].physFp == s.snapshots[key].physFp
  {
  }

  /** After a whole apply every row is truthful, except those of models not vouched for. */
  lemma ApplyKeepsTruth(w: World, r: Request, canon: Canon, acc: Acc, p: OldProject, env: Env, at: int, key: SnapKey)
    requires Setting(r, canon, acc, p) && PhysicsTruthful(w, r.store) && AllRunnable(r.models, acc.actions)
    requires Ordered(r.models, r.order) && acc.changeOf.Keys == r.versions.Keys == r.models.Keys
    requires key.name in r.models && key.fp == r.versions[key.name].fp ==> VouchedFor(w, r, canon, acc, p, key.name)
    ensures Truthful(w, Applied(r.store, env, r.models, acc.actions, at), key)
  {
    hide Content, Decide, PlanUpTo, ApplyUpTo, Setting, VouchedFor, Topological, Promoted;
    var n := |acc.actions|;
    var before := ApplyUpTo(r.store, r.models, acc.actions, at, n);
    PromotionKeepsPhysics(before, env, EntriesOf(r.models, acc.actions), at, key);
    if key in before.snapshots {
      ApplyRecords(r.store, r.models, acc.actions, at, n, key);
      if !(key in r.store.snapshots && before.snapshots[key].physFp == r.store.snapshots[key].physFp) {
        var j :| 0 <= j < n && key == SnapKey(acc.actions[j].name, acc.actions[j].fp)
                 && before.snapshots[key].physFp == acc.actions[j].physFp;
        ActionAt(r, canon, acc, p, j);
        PlannedPhysicsTruthful(w, r, canon, acc, p, j);
      }
    }
  }

  lemma ActionAt(r: Request, canon: Canon, acc: Acc, p: OldProject, j: nat)
    requires Setting(r, canon, acc, p) && j < |acc.actions|
    ensures j < |r.order| && r.order[j] in r.models && r.order[j] in r.versions
    ensures acc.actions[j].name == r.order[j] && acc.actions[j].fp == r.versions[r.order[j]].fp
  {
    hide PlanUpTo, Decide, BackfillFor;
    AccKeys(r, canon, |r.order|);
    PlanLocal(r, canon, acc, j);
  }

  /** When every model of the plan is vouched for, the whole store stays truthful. */
  lemma ApplyKeepsStoreTruthful(w: World, r: Request, canon: Canon, acc: Acc, p: OldProject, env: Env, at: int)
    requires Setting(r, canon, acc, p) && PhysicsTruthful(w, r.store) && AllRunnable(r.models, acc.actions)
    requires Ordered(r.models, r.order) && acc.changeOf.Keys == r.versions.Keys == r.models.Keys
    requires forall x | x in r.models :: VouchedFor(w, r, canon, acc, p, x)
    ensures PhysicsTruthful(w, Applied(r.store, env, r.models, acc.actions, at))
  {
    hide Content, Setting, VouchedFor, Applied, Topological;
    var t := Applied(r.store, env, r.models, acc.actions, at);
    forall k | k in t.snapshots ensures Content(w, t.snapshots[k].physFp) == Content(w, k.fp) {
      ApplyKeepsTruth(w, r, canon, acc, p, env, at, k);
    }
  }
}
