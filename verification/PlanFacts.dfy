/** What the planner's loop amounts to, and facts that follow for every plan. */
module PlanFacts {
  import opened Common
  import opened Models
  import opened Query
  import opened Graph
  import opened Fingerprints
  import opened Store
  import opened Planner

  /** A request as planChanges assembles it: an ordered project with its own fingerprints. */
  ghost predicate WellFormed(r: Request, canon: Canon) {
    && Ordered(r.models, r.order)
    && r.versions == Versions(r.models, r.order, canon)
  }

  lemma WellFormedKnown(r: Request, canon: Canon)
    requires WellFormed(r, canon)
    ensures Known(r)
    ensures r.versions.Keys == r.models.Keys
  {
    forall i | 0 <= i < |r.order| ensures r.order[i] in r.models && r.order[i] in r.versions {
      DepsEarlier(r.models, r.order, i);
    }
  }

  ghost predicate Planned(r: Request, canon: Canon, acc: Acc) {
    WellFormed(r, canon) && Known(r) && PlanUpTo(r, |r.order|) == Ok(acc)
  }

  /** One turn of the loop. */
  lemma PlanStep(r: Request, k: nat)
    requires Known(r) && k < |r.order| && PlanUpTo(r, k + 1).Ok?
    ensures PlanUpTo(r, k).Ok?
    ensures var before := PlanUpTo(r, k).value;
            var d := Decide(r, before.changeOf, before.reused, r.order[k]);
            d.Ok? && PlanUpTo(r, k + 1).value == Extend(r, before, r.order[k], d.value)
  {
    hide Decide, ActionFor, Extend;
  }

  /** The carried maps know exactly the models already planned. */
  ghost predicate Covers(acc: Acc, done: set<Name>, k: nat) {
    acc.changeOf.Keys == done && acc.reused <= done && |acc.actions| == k
  }

  lemma {:induction false} AccKeys(r: Request, canon: Canon, k: nat)
    requires WellFormed(r, canon) && Known(r) && k <= |r.order| && PlanUpTo(r, k).Ok?
    ensures Covers(PlanUpTo(r, k).value, Elems(r.order[..k]), k)
  {
    hide PlanUpTo, WellFormed, Decide, Extend;
    PlanStart(r);
    if k > 0 {
      PlanStep(r, k - 1);
      AccKeys(r, canon, k - 1);
      KeysStep(r, k);
    }
  }

  lemma PlanStart(r: Request)
    requires Known(r)
    ensures PlanUpTo(r, 0) == Ok(Acc(map[], {}, [])) && r.order[..0] == []
  {
  }

  lemma KeysStep(r: Request, k: nat)
    requires Known(r) && 0 < k <= |r.order| && PlanUpTo(r, k - 1).Ok? && PlanUpTo(r, k).Ok?
    requires Covers(PlanUpTo(r, k - 1).value, Elems(r.order[..k - 1]), k - 1)
    ensures Covers(PlanUpTo(r, k).value, Elems(r.order[..k]), k)
  {
    hide Decide, ActionFor;
    PlanStep(r, k - 1);
    assert r.order[..k] == r.order[..k - 1] + [r.order[k - 1]];
    ElemsAppend(r.order[..k - 1], r.order[k - 1]);
  }

  /** A later prefix agrees with an earlier one on everything the earlier one decided. */
  ghost predicate Agrees(a: Acc, b: Acc) {
    && (forall x | x in a.changeOf ::
          x in b.changeOf && b.changeOf[x] == a.changeOf[x] && (x in b.reused <==> x in a.reused))
    && a.actions <= b.actions
  }

  lemma AgreesTrans(a: Acc, b: Acc, c: Acc)
    requires Agrees(a, b) && Agrees(b, c)
    ensures Agrees(a, c)
  {
  }

  lemma {:induction false} AccAgrees(r: Request, canon: Canon, j: nat, k: nat)
    requires WellFormed(r, canon) && Known(r) && j <= k <= |r.order| && PlanUpTo(r, k).Ok?
    ensures PlanUpTo(r, j).Ok?
    ensures Agrees(PlanUpTo(r, j).value, PlanUpTo(r, k).value)
    decreases k
  {
    hide PlanUpTo, WellFormed, Known;
    if j < k {
      AccStep(r, canon, k - 1);
      AccAgrees(r, canon, j, k - 1);
      AgreesTrans(PlanUpTo(r, j).value, PlanUpTo(r, k - 1).value, PlanUpTo(r, k).value);
    }
  }

  lemma AccStep(r: Request, canon: Canon, k: nat)
    requires WellFormed(r, canon) && Known(r) && k < |r.order| && PlanUpTo(r, k + 1).Ok?
    ensures PlanUpTo(r, k).Ok? && Agrees(PlanUpTo(r, k).value, PlanUpTo(r, k + 1).value)
  {
    hide Decide, ActionFor, PlanUpTo;
    PlanStep(r, k);
    AccKeys(r, canon, k);
    DepsEarlier(r.models, r.order, k);
  }

  /** A decision looks at its direct dependencies only. */
  lemma DecideLocal(r: Request, a: Acc, b: Acc, name: Name)
    requires name in r.models && name in r.versions
    requires forall d | d in r.models[name].deps ::
               d in a.changeOf && d in b.changeOf && a.changeOf[d] == b.changeOf[d]
               && (d in a.reused <==> d in b.reused)
    ensures Decide(r, a.changeOf, a.reused, name) == Decide(r, b.changeOf, b.reused, name)
  {
    var m := r.models[name];
    var x, y := ChangedParents(m, a.changeOf), ChangedParents(m, b.changeOf);
    forall d ensures d in x <==> d in y { }
    assert x == y;
  }

  /** The plan as a whole decides every model by the rules, over the plan's own verdicts. */
  lemma PlanLocal(r: Request, canon: Canon, acc: Acc, k: nat)
    requires Planned(r, canon, acc) && k < |r.order|
    ensures var name := r.order[k];
            && name in r.models && name in r.versions
            && acc.changeOf.Keys == r.models.Keys && k < |acc.actions|
            && var d := Decide(r, acc.changeOf, acc.reused, name);
               && d.Ok?
               && acc.changeOf[name] == d.value.change
               && (name in acc.reused <==> d.value.reuses)
               && acc.actions[k] == ActionFor(r, name, d.value)
  {
    hide PlanUpTo, Decide, ActionFor;
    var n := |r.order|;
    assert r.order[..n] == r.order;
    AccKeys(r, canon, n);
    AccAgrees(r, canon, k, n);
    AccAgrees(r, canon, k + 1, n);
    AccKeys(r, canon, k);
    DepsEarlier(r.models, r.order, k);
    LocalStep(r, canon, acc, k);
  }

  lemma LocalStep(r: Request, canon: Canon, acc: Acc, k: nat)
    requires Planned(r, canon, acc) && k < |r.order|
    requires PlanUpTo(r, k).Ok? && PlanUpTo(r, k + 1).Ok?
    requires Agrees(PlanUpTo(r, k).value, acc) && Agrees(PlanUpTo(r, k + 1).value, acc)
    requires Covers(PlanUpTo(r, k).value, Elems(r.order[..k]), k)
    requires r.models[r.order[k]].deps <= Elems(r.order[..k]) && r.order[k] !in Elems(r.order[..k])
    ensures var name := r.order[k];
            var d := Decide(r, acc.changeOf, acc.reused, name);
            && d.Ok?
            && name in acc.changeOf && acc.changeOf[name] == d.value.change
            && (name in acc.reused <==> d.value.reuses)
            && k < |acc.actions| && acc.actions[k] == ActionFor(r, name, d.value)
  {
    hide Decide, ActionFor, PlanUpTo;
    PlanStep(r, k);
    var before, after := PlanUpTo(r, k).value, PlanUpTo(r, k + 1).value;
    var name := r.order[k];
    DecideLocal(r, before, acc, name);
    assert name in after.changeOf;
    assert after.actions[k] == acc.actions[k];
  }

  /** Same, by name. */
  lemma PlanLocalName(r: Request, canon: Canon, acc: Acc, name: Name)
    requires Planned(r, canon, acc) && name in r.models
    ensures name in r.versions && name in acc.changeOf
    ensures acc.changeOf.Keys == r.models.Keys
    ensures var d := Decide(r, acc.changeOf, acc.reused, name);
            && d.Ok? && acc.changeOf[name] == d.value.change && (name in acc.reused <==> d.value.reuses)
  {
    assert name in Elems(r.order);
    var k :| 0 <= k < |r.order| && r.order[k] == name;
    PlanLocal(r, canon, acc, k);
  }

  // ----- the exact meaning of the verdicts that need no snapshot -----

  /** Unchanged means the environment already has this very fingerprint; added, that it has none. */
  lemma VerdictsByFingerprint(r: Request, canon: Canon, acc: Acc, name: Name)
    requires Planned(r, canon, acc) && name in r.models
    ensures name in acc.changeOf && name in r.versions
    ensures acc.changeOf[name].Unchanged? <==> name in r.current && r.current[name] == r.versions[name].fp
    ensures acc.changeOf[name].Added? <==> name !in r.current
  {
    hide PlanUpTo, Overridden, Inherit;
    PlanLocalName(r, canon, acc, name);
    VerdictShape(r, acc, name);
  }

  /** Only the fingerprint comparison can say added or unchanged. */
  lemma VerdictShape(r: Request, acc: Acc, name: Name)
    requires name in r.models && name in r.versions && Decide(r, acc.changeOf, acc.reused, name).Ok?
    ensures var c := Decide(r, acc.changeOf, acc.reused, name).value.change;
            && (c.Unchanged? <==> name in r.current && r.current[name] == r.versions[name].fp)
            && (c.Added? <==> name !in r.current)
  {
  }

  /**
   * The planner rehashes the new model over the old parents' fingerprints and compares. If
   * the environment serves an earlier project, the comparison holds exactly when that
   * project defined the model just as the new one does, over the same dependencies.
   */
  lemma ParentsOnlyExact(r: Request, canon: Canon, models0: map<Name, Model>, order0: seq<Name>, canon0: Canon,
                         name: Name)
    requires WellFormed(r, canon) && Ordered(models0, order0) && r.current == Fps(models0, order0, canon0)
    requires name in r.models && name in models0 && name in r.versions && name in r.current
    ensures ShiftedByParentsOnly(r, name, r.current[name]) <==>
              SameAt(canon0, models0[name], canon, r.models[name])
  {
    PayloadExact(canon0, models0[name], canon, r.models[name]);
    FpUnfold(models0, order0, canon0, name);
    FpUnfold(r.models, r.order, canon, name);
    var deps, deps0 := r.models[name].deps, models0[name].deps;
    if deps <= r.current.Keys {
      SignatureTells(deps, r.current, deps0, r.current);
    }
  }

  /** A version moved by its parents alone has a parent that moved. */
  lemma ShiftedHasChangedParent(r: Request, canon: Canon, acc: Acc, name: Name)
    requires Planned(r, canon, acc) && name in r.models && name in r.current && name in r.versions
    requires r.current[name] != r.versions[name].fp && ShiftedByParentsOnly(r, name, r.current[name])
    ensures exists d :: d in r.models[name].deps && d in r.models && d in acc.changeOf && !acc.changeOf[d].Unchanged?
  {
    var m := r.models[name];
    var fps := Fps(r.models, r.order, canon);
    FpUnfold(r.models, r.order, canon, name);
    SignatureExact(m.deps, fps, r.current);
    var d :| d in m.deps && fps[d] != r.current[d];
    VerdictsByFingerprint(r, canon, acc, d);
    assert r.versions[d].fp == fps[d];
  }

  // ----- forward-only never arises by itself -----

  lemma ForwardOnlyShape(r: Request, acc: Acc, name: Name)
    requires name in r.models && name in r.versions
    requires Decide(r, acc.changeOf, acc.reused, name).Ok?
    requires Decide(r, acc.changeOf, acc.reused, name).value.change.ForwardOnly?
    ensures name in r.current && r.current[name] != r.versions[name].fp
    ensures Flagged(r, name) ||
            (ShiftedByParentsOnly(r, name, r.current[name]) && Cascades(r.models[name], acc.changeOf))
  {
  }

  /** Every forward-only model is flagged, or has a forward-only parent. */
  lemma ForwardOnlyHasCause(r: Request, canon: Canon, acc: Acc, name: Name)
    requires Planned(r, canon, acc) && name in r.models
    requires name in acc.changeOf && acc.changeOf[name].ForwardOnly?
    ensures Flagged(r, name) ||
            exists d :: d in r.models[name].deps && d in r.models && d in acc.changeOf && acc.changeOf[d].ForwardOnly?
  {
    hide PlanUpTo, Decide;
    PlanLocalName(r, canon, acc, name);
    ForwardOnlyShape(r, acc, name);
    if !Flagged(r, name) {
      ShiftedHasChangedParent(r, canon, acc, name);
      var d :| d in r.models[name].deps && d in r.models && d in acc.changeOf && !acc.changeOf[d].Unchanged?;
      assert Cascades(r.models[name], acc.changeOf);
    }
  }

  lemma {:induction false} ForwardOnlyTracedUpTo(r: Request, canon: Canon, acc: Acc, k: nat)
    requires Planned(r, canon, acc) && k < |r.order|
    requires r.order[k] in acc.changeOf && acc.changeOf[r.order[k]].ForwardOnly?
    ensures exists f :: Flagged(r, f) && Downstream(r.models, f, r.order[k])
    decreases k
  {
    var name := r.order[k];
    DepsEarlier(r.models, r.order, k);
    ForwardOnlyHasCause(r, canon, acc, name);
    if Flagged(r, name) {
      assert Downstream(r.models, name, name);
    } else {
      var d :| d in r.models[name].deps && d in r.models && d in acc.changeOf && acc.changeOf[d].ForwardOnly?;
      assert d in Elems(r.order[..k]);
      var j :| 0 <= j < k && r.order[..k][j] == d;
      ForwardOnlyTracedUpTo(r, canon, acc, j);
      var f :| Flagged(r, f) && Downstream(r.models, f, d);
      DownstreamStep(r.models, f, d, name);
    }
  }

  lemma DownstreamStep(models: map<Name, Model>, f: Name, d: Name, x: Name)
    requires d in models && x in models && d in models[x].deps && Downstream(models, f, d)
    ensures Downstream(models, f, x)
  {
    var edges := DependentsOf(DepMap(models));
    assert x in edges[d];
    ReachesStep(edges, f, d, x);
  }

  /** Every forward-only verdict of a plan descends from a model the operator flagged. */
  lemma ForwardOnlyNeedsFlag(r: Request, canon: Canon, acc: Acc, name: Name)
    requires Planned(r, canon, acc) && name in r.models
    requires name in acc.changeOf && acc.changeOf[name].ForwardOnly?
    ensures exists f :: Flagged(r, f) && Downstream(r.models, f, name)
  {
    assert name in Elems(r.order);
    var k :| 0 <= k < |r.order| && r.order[k] == name;
    ForwardOnlyTracedUpTo(r, canon, acc, k);
  }
}
