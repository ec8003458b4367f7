/**
 * The planner's verdicts (src/plan/planner.ts:243-405) said in terms of what it reads: the
 * stored and the new query, the operator's options, and the verdicts on the parents.
 */
module Verdicts {
  import opened Common
  import opened Models
  import opened Query
  import opened Graph
  import opened Fingerprints
  import opened Store
  import opened Planner
  import opened PlanFacts

  /** The environment serves another version of this model, and this is its row. */
  function Served(r: Request, x: Name): Option<Snapshot> {
    if x in r.current && SnapKey(x, r.current[x]) in r.store.snapshots
    then Some(r.store.snapshots[SnapKey(x, r.current[x])]) else None
  }

  ghost predicate Moved(r: Request, x: Name)
    requires x in r.versions
  {
    x in r.current && r.current[x] != r.versions[x].fp
  }

  /** The row was written by the present algorithm and holds this query. */
  ghost predicate Stored(r: Request, x: Name, ast: Ast) {
    Served(r, x).Some? && Served(r, x).value.version == FINGERPRINT_VERSION && Served(r, x).value.ast == Some(ast)
  }

  /** The stored query is the new one. */
  ghost predicate BodyStands(r: Request, x: Name)
    requires x in r.versions
  {
    r.versions[x].ast.Some? && Stored(r, x, r.versions[x].ast.value)
  }

  /** The new query is the stored one with more items at the end of its select list. */
  ghost predicate BodyGrows(r: Request, x: Name)
    requires x in r.versions
  {
    exists list, rest, suffix: seq<Item> ::
      suffix != [] && Stored(r, x, Select(list, rest)) && r.versions[x].ast == Some(Select(list + suffix, rest))
  }

  /** Calling the edit non-breaking cannot be right: a query is missing, or select items are. */
  ghost predicate Contradicts(r: Request, x: Name)
    requires x in r.versions
  {
    || r.versions[x].ast.None? || (forall ast :: !Stored(r, x, ast))
    || exists was, now :: Stored(r, x, was) && r.versions[x].ast == Some(now)
                          && was.Select? && now.Select? && |now.list| < |was.list|
  }

  /** What the text alone says of a moved model. */
  ghost function TextVerdict(r: Request, x: Name): Change
    requires x in r.versions
  {
    if BodyStands(r, x) then Indirect else if BodyGrows(r, x) then NonBreaking else Breaking
  }

  /** The operator's word for an edited text. */
  function Word(r: Request, x: Name): Option<Change> {
    if x in r.reclassify then Some(if r.reclassify[x].ToBreaking? then Breaking else NonBreaking) else None
  }

  /** The verdict on the text with the operator's word taken: only an edited text can be reclassified. */
  ghost function StatedVerdict(r: Request, x: Name): Change
    requires x in r.versions
  {
    if BodyStands(r, x) || Word(r, x).None? then TextVerdict(r, x) else Word(r, x).value
  }

  // ----- the text -----

  lemma StoredIsOld(r: Request, x: Name, ast: Ast)
    requires x in r.current && (Served(r, x).Some? ==> Served(r, x).value.version <= FINGERPRINT_VERSION)
    ensures Stored(r, x, ast) <==> OldAst(SnapshotOf(r.store, x, r.current[x])) == Some(ast)
  {
  }

  lemma GrowsExact(r: Request, x: Name)
    requires x in r.current && x in r.versions
    requires Served(r, x).Some? ==> Served(r, x).value.version <= FINGERPRINT_VERSION
    ensures BodyGrows(r, x) <==>
              var old0 := OldAst(SnapshotOf(r.store, x, r.current[x]));
              old0.Some? && r.versions[x].ast.Some?
              && CategorizeAstChange(old0.value, r.versions[x].ast.value).IsNonBreaking?
  {
    var old0, new0 := OldAst(SnapshotOf(r.store, x, r.current[x])), r.versions[x].ast;
    if old0.Some? && new0.Some? {
      NonBreakingIsSuffix(old0.value, new0.value);
      StoredIsOld(r, x, old0.value);
      if old0.value.Select? {
        if suffix: seq<Item> :| suffix != [] && new0.value == Select(old0.value.list + suffix, old0.value.rest) {
          assert Stored(r, x, Select(old0.value.list, old0.value.rest));
        }
      }
    }
    if list, rest, suffix: seq<Item> :|
       suffix != [] && Stored(r, x, Select(list, rest)) && new0 == Some(Select(list + suffix, rest)) {
      StoredIsOld(r, x, Select(list, rest));
    }
  }

  lemma TextExact(r: Request, x: Name)
    requires x in r.current && x in r.versions
    requires Served(r, x).Some? ==> Served(r, x).value.version <= FINGERPRINT_VERSION
    ensures OwnChange(OldAst(SnapshotOf(r.store, x, r.current[x])), r.versions[x].ast) == TextVerdict(r, x)
  {
    hide CategorizeAstChange, BodyGrows, OldAst;
    GrowsExact(r, x);
    if r.versions[x].ast.Some? { StoredIsOld(r, x, r.versions[x].ast.value); }
  }

  lemma ContradictsExact(r: Request, x: Name)
    requires x in r.current && x in r.versions
    requires Served(r, x).Some? ==> Served(r, x).value.version <= FINGERPRINT_VERSION
    ensures var old0 := OldAst(SnapshotOf(r.store, x, r.current[x]));
            Contradicts(r, x) <==>
              old0.None? || r.versions[x].ast.None? || DropsColumns(old0.value, r.versions[x].ast.value)
  {
    hide OldAst, Stored;
    forall ast ensures Stored(r, x, ast) <==> OldAst(SnapshotOf(r.store, x, r.current[x])) == Some(ast) {
      StoredIsOld(r, x, ast);
    }
  }

  // ----- refusals -----

  /** A moved model is refused exactly if its row is of a newer algorithm or the operator's word contradicts it. */
  lemma RefusedExact(r: Request, changeOf: map<Name, Change>, reused: set<Name>, x: Name)
    requires x in r.models && x in r.versions
    ensures Decide(r, changeOf, reused, x).Err? <==>
              Moved(r, x)
              && ((Served(r, x).Some? && Served(r, x).value.version > FINGERPRINT_VERSION)
                  || (!BodyStands(r, x) && !BodyGrows(r, x) && Word(r, x) == Some(NonBreaking) && Contradicts(r, x)))
  {
    hide OldAst, OwnChange, BodyStands, BodyGrows, Contradicts, DropsColumns;
    if Moved(r, x) && (Served(r, x).Some? ==> Served(r, x).value.version <= FINGERPRINT_VERSION) {
      TextExact(r, x);
      ContradictsExact(r, x);
    }
  }

  // ----- the verdict -----

  /** Verdict and record of the operator's word, for a moved model that keeps its own physics or its parents'. */
  lemma DecidedText(r: Request, changeOf: map<Name, Change>, reused: set<Name>, x: Name)
    requires x in r.models && x in r.versions && Moved(r, x) && Decide(r, changeOf, reused, x).Ok?
    ensures var d := Decide(r, changeOf, reused, x).value;
            && (d.change == ForwardOnly || d.change == StatedVerdict(r, x))
            && d.reclassifiedFrom
               == (if StatedVerdict(r, x) == TextVerdict(r, x) then None else Some(TextVerdict(r, x)))
  {
    hide OldAst, OwnChange, BodyStands, BodyGrows, DropsColumns, ShiftedByParentsOnly, Cascades, IndirectReuse;
    TextExact(r, x);
  }

  /** The model as the environment serves it, over other versions of its parents. */
  ghost predicate OnlyParentsMoved(r: Request, x: Name)
    requires x in r.models && x in r.versions
  {
    x in r.current && BodyStands(r, x) && ShiftedByParentsOnly(r, x, r.current[x])
  }

  /** A parent whose old columns the planner takes to be as they were. */
  ghost predicate Harmless(changeOf: map<Name, Change>, reused: set<Name>, d: Name)
    requires d in changeOf
  {
    changeOf[d] == NonBreaking || changeOf[d] == ForwardOnly || (changeOf[d] == Indirect && d in reused)
  }

  /** When a moved model goes on in its old physics as forward-only. */
  ghost predicate GoesForward(r: Request, changeOf: map<Name, Change>, x: Name)
    requires x in r.models && x in r.versions
  {
    Served(r, x).Some? && Served(r, x).value.version == FINGERPRINT_VERSION &&
    (x in r.forwardOnly
     || (OnlyParentsMoved(r, x) && r.models[x].kind.TimeRange?
         && forall d | d in r.models[x].deps && d in changeOf ::
              changeOf[d] == Unchanged || changeOf[d] == ForwardOnly))
  }

  /** When a moved model keeps its old physics because its parents did not really change. */
  ghost predicate KeepsTable(r: Request, changeOf: map<Name, Change>, reused: set<Name>, x: Name)
    requires x in r.models && x in r.versions
  {
    && OnlyParentsMoved(r, x)
    && (r.models[x].kind.Full? || r.models[x].kind.TimeRange? || r.models[x].kind.UniqueKey? || r.models[x].kind.Scd2?)
    && (exists d :: d in r.models[x].deps && d in changeOf && changeOf[d] != Unchanged)
    && (forall d | d in r.models[x].deps && d in changeOf && changeOf[d] != Unchanged :: Harmless(changeOf, reused, d))
  }

  lemma ReuseParts(m: Model, changeOf: map<Name, Change>, reused: set<Name>)
    ensures IndirectReuse(m, changeOf, reused) <==>
              && (m.kind.Full? || m.kind.TimeRange? || m.kind.UniqueKey? || m.kind.Scd2?)
              && (exists d :: d in m.deps && d in changeOf && changeOf[d] != Unchanged)
              && (forall d | d in m.deps && d in changeOf && changeOf[d] != Unchanged :: Harmless(changeOf, reused, d))
  {
    var changed := ChangedParents(m, changeOf);
    assert forall d :: d in changed <==> d in m.deps && d in changeOf && changeOf[d] != Unchanged;
    if changed != {} {
      var d := Any(changed);
      assert d in changed;
    }
    if d :| d in m.deps && d in changeOf && changeOf[d] != Unchanged { assert d in changed; }
    forall d | d in changed ensures Benign(d, changeOf, reused) <==> Harmless(changeOf, reused, d) { }
  }

  lemma DecidedPhysics(r: Request, changeOf: map<Name, Change>, reused: set<Name>, x: Name)
    requires x in r.models && x in r.versions && Decide(r, changeOf, reused, x).Ok?
    ensures var d := Decide(r, changeOf, reused, x).value;
            && (d.change == ForwardOnly <==> Moved(r, x) && GoesForward(r, changeOf, x))
            && (d.reuses <==> Moved(r, x) && !GoesForward(r, changeOf, x) && KeepsTable(r, changeOf, reused, x))
            && d.reusedFrom == (if d.change == ForwardOnly || d.reuses then Some(r.current[x]) else None)
  {
    hide OldAst, OwnChange, BodyGrows, DropsColumns, ShiftedByParentsOnly, IndirectReuse, Harmless;
    if Moved(r, x) {
      TextExact(r, x);
      ReuseParts(r.models[x], changeOf, reused);
    }
  }

  /**
   * The verdict on every model of a plan. Unmoved models are unchanged and new ones added;
   * forward-only and reuse arise exactly as stated; every other model is indirect, non-breaking
   * or breaking by its text, unless the operator has said otherwise of an edited one.
   */
  lemma VerdictExact(r: Request, canon: Canon, acc: Acc, x: Name)
    requires Planned(r, canon, acc) && x in r.models
    ensures x in r.versions && acc.changeOf.Keys == r.models.Keys
    ensures acc.changeOf[x] ==
              if x !in r.current then Added
              else if r.current[x] == r.versions[x].fp then Unchanged
              else if GoesForward(r, acc.changeOf, x) then ForwardOnly
              else StatedVerdict(r, x)
    ensures x in acc.reused <==>
              Moved(r, x) && !GoesForward(r, acc.changeOf, x) && KeepsTable(r, acc.changeOf, acc.reused, x)
  {
    hide PlanUpTo, Decide, BodyStands, BodyGrows, KeepsTable, GoesForward;
    PlanLocalName(r, canon, acc, x);
    DecidedPhysics(r, acc.changeOf, acc.reused, x);
    if Moved(r, x) {
      DecidedText(r, acc.changeOf, acc.reused, x);
    } else {
      VerdictsByFingerprint(r, canon, acc, x);
    }
  }

  /** A plan's action carries the verdict, what an override replaced, and the version it inherits from. */
  lemma ActionTells(r: Request, canon: Canon, acc: Acc, k: nat)
    requires Planned(r, canon, acc) && k < |r.order|
    ensures k < |acc.actions| && r.order[k] in r.models && r.order[k] in r.versions
    ensures acc.changeOf.Keys == r.models.Keys
    ensures var a, x := acc.actions[k], r.order[k];
            && a.name == x && a.change == acc.changeOf[x]
            && a.reclassifiedFrom == (if Moved(r, x) && StatedVerdict(r, x) != TextVerdict(r, x)
                                      then Some(TextVerdict(r, x)) else None)
            && a.reusedFrom == (if x in r.current && (a.change == ForwardOnly || x in acc.reused)
                                then Some(r.current[x]) else None)
  {
    hide PlanUpTo, Decide, BackfillFor, StatedVerdict, TextVerdict, GoesForward, KeepsTable;
    PlanLocal(r, canon, acc, k);
    var x := r.order[k];
    DecidedPhysics(r, acc.changeOf, acc.reused, x);
    if Moved(r, x) {
      DecidedText(r, acc.changeOf, acc.reused, x);
    } else {
      UnmovedDecision(r, acc, x);
    }
  }

  lemma UnmovedDecision(r: Request, acc: Acc, x: Name)
    requires x in r.models && x in r.versions && !Moved(r, x)
    ensures var d := Decide(r, acc.changeOf, acc.reused, x);
            d.Ok? && d.value.reclassifiedFrom.None? && d.value.reusedFrom.None?
  {
  }

  /** With valid options only time-range models ever go forward-only. */
  lemma ForwardOnlyIsTimeRange(r: Request, canon: Canon, acc: Acc, env: Env, x: Name)
    requires Planned(r, canon, acc) && OptionsValid(env, r.models, r.forwardOnly, r.reclassify)
    requires x in r.models && x in acc.changeOf && acc.changeOf[x].ForwardOnly?
    ensures r.models[x].kind.TimeRange?
  {
    hide PlanUpTo, OnlyParentsMoved, StatedVerdict;
    VerdictExact(r, canon, acc, x);
    StatedIsNotForward(r, x);
  }

  lemma StatedIsNotForward(r: Request, x: Name)
    requires x in r.versions
    ensures StatedVerdict(r, x) != ForwardOnly
  {
  }
}
