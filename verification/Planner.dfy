/**
 * The planner (src/plan/planner.ts): per model, in topological order, what changed and
 * whether the new version builds its own physics or inherits the old one. Explanations
 * and window warnings are prose and are not modelled.
 */
module Planner {
  import opened Common
  import opened Models
  import opened Intervals
  import opened Query
  import opened Graph
  import opened Fingerprints
  import opened Store

  datatype Change = Added | Breaking | NonBreaking | Indirect | ForwardOnly | Removed | Unchanged

  datatype Override = ToBreaking | ToNonBreaking

  datatype PlanError =
    | InvalidEnvironment
    | FlaggedUnknown(name: Name)
    | FlaggedKind(name: Name)
    | ReclassifyUnknown(name: Name)
    | ReclassifyWithoutAst(name: Name)
    | ReclassifyDropsColumns(name: Name)
    | NewerFingerprint(name: Name, found: int)

  datatype Action = Action(
    name: Name,
    fp: Fp,
    physFp: Fp,
    reusedFrom: Option<Fp>,
    ast: Option<Ast>,
    change: Change,
    reclassifiedFrom: Option<Change>,
    build: bool,
    backfill: seq<Interval>,
    refresh: bool)

  /** Everything a plan reads: the project with its fingerprints, the store, the options. */
  datatype Request = Request(
    models: map<Name, Model>,
    order: seq<Name>,
    versions: map<Name, Version>,
    store: State,
    current: map<Name, Fp>,
    now: int,
    forwardOnly: seq<Name>,
    reclassify: map<Name, Override>)

  /** What the loop carries from model to model. */
  datatype Acc = Acc(changeOf: map<Name, Change>, reused: set<Name>, actions: seq<Action>)

  datatype Decision = Decision(
    change: Change,
    reclassifiedFrom: Option<Change>,
    reusedFrom: Option<Fp>,
    physFp: Fp,
    reuses: bool)

  // ----- names -----

  /** `^[a-z][a-z0-9_]*$`. */
  predicate ValidEnvName(env: Env) {
    |env| > 0 && 'a' <= env[0] <= 'z'
    && forall i | 0 < i < |env| :: 'a' <= env[i] <= 'z' || '0' <= env[i] <= '9' || env[i] == '_'
  }

  const LOWER := "abcdefghijklmnopqrstuvwxyz"
  const DIGITS := "0123456789"

  lemma LowerExact(c: char)
    ensures c in LOWER <==> 'a' <= c <= 'z'
  {
    var n := c as int - 'a' as int;
    if 0 <= n < 26 {
      assert LOWER[n] == c;
    }
  }

  lemma DigitExact(c: char)
    ensures c in DIGITS <==> '0' <= c <= '9'
  {
    var n := c as int - '0' as int;
    if 0 <= n < 10 {
      assert DIGITS[n] == c;
    }
  }

  /** An environment's name is a lower-case letter and then letters, digits and underscores. */
  lemma EnvNameExact(env: Env)
    ensures ValidEnvName(env) <==>
              env != "" && env[0] in LOWER
              && forall i | 0 <= i < |env| :: env[i] in LOWER || env[i] in DIGITS || env[i] == '_'
  {
    forall i | 0 <= i < |env|
      ensures env[i] in LOWER <==> 'a' <= env[i] <= 'z'
      ensures env[i] in DIGITS <==> '0' <= env[i] <= '9'
    {
      LowerExact(env[i]);
      DigitExact(env[i]);
    }
  }

  function CurrentOf(s: State, env: Env): map<Name, Fp> {
    map k | k in s.envs && k.env == env :: k.name := s.envs[k]
  }

  // ----- the verdict on one model's own text -----

  /** The AST to compare with: none for a missing or stale snapshot or one stored without. */
  function OldAst(prev: Option<Snapshot>): Option<Ast> {
    if prev.Some? && prev.value.version >= FINGERPRINT_VERSION then prev.value.ast else None
  }

  function OwnChange(oldAst: Option<Ast>, ast: Option<Ast>): Change {
    if oldAst.None? || ast.None? then Breaking
    else if oldAst == ast then Indirect
    else if CategorizeAstChange(oldAst.value, ast.value).IsNonBreaking? then NonBreaking
    else Breaking
  }

  predicate DropsColumns(oldAst: Ast, newAst: Ast) {
    oldAst.Select? && newAst.Select? && |newAst.list| < |oldAst.list|
  }

  /** The operator's override: the stated verdict, guarded against a plain contradiction. */
  function Overridden(r: Request, name: Name, change: Change, oldAst: Option<Ast>, ast: Option<Ast>)
    : Result<(Change, Option<Change>), PlanError>
  {
    if name !in r.reclassify || !(change.Breaking? || change.NonBreaking?) then Ok((change, None)) else
      var stated := if r.reclassify[name].ToBreaking? then Breaking else NonBreaking;
      if stated == change then Ok((change, None))
      else if stated.NonBreaking? && (oldAst.None? || ast.None?) then Err(ReclassifyWithoutAst(name))
      else if stated.NonBreaking? && DropsColumns(oldAst.value, ast.value) then Err(ReclassifyDropsColumns(name))
      else Ok((stated, Some(change)))
  }

  // ----- inheriting physics -----

  /** The old fingerprint is the new model's own payload over the old parents. */
  predicate ShiftedByParentsOnly(r: Request, name: Name, known: Fp)
    requires name in r.models && name in r.versions
  {
    var m := r.models[name];
    m.deps <= r.current.Keys
    && ModelFingerprint(m, r.versions[name].ast, Signature(m.deps, r.current)) == known
  }

  predicate Reusable(kind: Kind) {
    kind.Full? || kind.TimeRange? || kind.UniqueKey? || kind.Scd2?
  }

  function ChangedParents(m: Model, changeOf: map<Name, Change>): set<Name> {
    set d | d in m.deps && d in changeOf && changeOf[d] != Unchanged
  }

  /** A parent that stands still, or is forward-only, lets forward-only cascade. */
  predicate Cascades(m: Model, changeOf: map<Name, Change>) {
    forall d | d in m.deps && d in changeOf :: changeOf[d].Unchanged? || changeOf[d].ForwardOnly?
  }

  /** A changed parent that promises the same data in the old columns. */
  predicate Benign(d: Name, changeOf: map<Name, Change>, reused: set<Name>)
    requires d in changeOf
  {
    changeOf[d].NonBreaking? || changeOf[d].ForwardOnly? || (changeOf[d].Indirect? && d in reused)
  }

  predicate IndirectReuse(m: Model, changeOf: map<Name, Change>, reused: set<Name>) {
    var changed := ChangedParents(m, changeOf);
    Reusable(m.kind) && changed != {} && forall d | d in changed :: Benign(d, changeOf, reused)
  }

  predicate Flagged(r: Request, name: Name) {
    name in r.forwardOnly
  }

  function Decide(r: Request, changeOf: map<Name, Change>, reused: set<Name>, name: Name)
    : Result<Decision, PlanError>
    requires name in r.models && name in r.versions
  {
    var fp, ast := r.versions[name].fp, r.versions[name].ast;
    if name !in r.current then Ok(Decision(Added, None, None, fp, false))
    else if r.current[name] == fp then Ok(Decision(Unchanged, None, None, fp, false))
    else
      var known := r.current[name];
      var prev := SnapshotOf(r.store, name, known);
      if prev.Some? && prev.value.version > FINGERPRINT_VERSION then
        Err(NewerFingerprint(name, prev.value.version))
      else
        var oldAst := OldAst(prev);
        var verdict := Overridden(r, name, OwnChange(oldAst, ast), oldAst, ast);
        if verdict.Err? then Err(verdict.error)
        else Ok(Inherit(r, changeOf, reused, name, known, prev, verdict.value.0, verdict.value.1))
  }

  /** Forward-only and indirect reuse both keep the previous version's physics. */
  function Inherit(r: Request, changeOf: map<Name, Change>, reused: set<Name>, name: Name, known: Fp,
                   prev: Option<Snapshot>, change: Change, reclassifiedFrom: Option<Change>): Decision
    requires name in r.models && name in r.versions
  {
    var m := r.models[name];
    var parentsOnly := change.Indirect? && prev.Some? && ShiftedByParentsOnly(r, name, known);
    var stale := prev.Some? && prev.value.version < FINGERPRINT_VERSION;
    var cascaded := parentsOnly && m.kind.TimeRange? && Cascades(m, changeOf);
    if prev.Some? && !stale && (Flagged(r, name) || cascaded) then
      Decision(ForwardOnly, reclassifiedFrom, Some(known), prev.value.physFp, false)
    else if parentsOnly && IndirectReuse(m, changeOf, reused) then
      Decision(change, reclassifiedFrom, Some(known), prev.value.physFp, true)
    else
      Decision(change, reclassifiedFrom, None, r.versions[name].fp, false)
  }

  // ----- the action -----

  /** Own done intervals, overlaid with those of the version whose physics is inherited. */
  function DoneFor(s: State, fp: Fp, reusedFrom: Option<Fp>): map<int, int> {
    DoneOf(s, fp) + (if reusedFrom.Some? then DoneOf(s, reusedFrom.value) else map[])
  }

  function BackfillFor(r: Request, name: Name, reusedFrom: Option<Fp>): seq<Interval>
    requires name in r.models && name in r.versions
  {
    var kind := r.models[name].kind;
    if !kind.TimeRange? then [] else
      Backfill(Wanted(kind.unit, kind.start, r.now), DoneFor(r.store, r.versions[name].fp, reusedFrom), kind.lookback)
  }

  function ActionFor(r: Request, name: Name, d: Decision): Action
    requires name in r.models && name in r.versions
  {
    var fp, kind := r.versions[name].fp, r.models[name].kind;
    var existing := SnapshotOf(r.store, name, fp);
    Action(name, fp,
           if existing.Some? then existing.value.physFp else d.physFp,
           d.reusedFrom, r.versions[name].ast, d.change, d.reclassifiedFrom,
           !(kind.External? || d.change.Unchanged? || existing.Some?),
           BackfillFor(r, name, d.reusedFrom),
           kind.UniqueKey? || kind.Scd2?)
  }

  function Extend(r: Request, acc: Acc, name: Name, d: Decision): Acc
    requires name in r.models && name in r.versions
  {
    Acc(acc.changeOf[name := d.change],
        if d.reuses then acc.reused + {name} else acc.reused,
        acc.actions + [ActionFor(r, name, d)])
  }

  ghost predicate Known(r: Request) {
    forall i | 0 <= i < |r.order| :: r.order[i] in r.models && r.order[i] in r.versions
  }

  /** The loop over the first `k` models of the order. */
  ghost function PlanUpTo(r: Request, k: nat): Result<Acc, PlanError>
    requires Known(r) && k <= |r.order|
  {
    if k == 0 then Ok(Acc(map[], {}, [])) else
      var before := PlanUpTo(r, k - 1);
      if before.Err? then before else
        var name := r.order[k - 1];
        var d := Decide(r, before.value.changeOf, before.value.reused, name);
        if d.Err? then Err(d.error) else Ok(Extend(r, before.value, name, d.value))
  }

  /** The rows of the environment that are no longer in the project. */
  function Gone(r: Request): (names: seq<Name>)
    ensures forall i | 0 <= i < |names| :: names[i] in r.current
  {
    var names := Sorted(r.current.Keys - r.models.Keys);
    assert forall i | 0 <= i < |names| :: names[i] in r.current by {
      forall i | 0 <= i < |names| ensures names[i] in r.current {
        var x := names[i];
        assert x in names;
      }
    }
    names
  }

  function RemovedAction(r: Request, name: Name): Action
    requires name in r.current
  {
    Action(name, r.current[name], r.current[name], None, None, Removed, None, false, [], false)
  }

  function RemovedActions(r: Request): seq<Action> {
    var names := Gone(r);
    seq(|names|, i requires 0 <= i < |names| => RemovedAction(r, names[i]))
  }

  // ----- planChanges -----

  /** The options a plan is refused for before it looks at any model. */
  ghost predicate OptionsValid(env: Env, models: map<Name, Model>, forwardOnly: seq<Name>,
                               reclassify: map<Name, Override>)
  {
    && ValidEnvName(env)
    && (forall i | 0 <= i < |forwardOnly| :: forwardOnly[i] in models && models[forwardOnly[i]].kind.TimeRange?)
    && reclassify.Keys <= models.Keys
  }

  method CheckOptions(env: Env, models: map<Name, Model>, forwardOnly: seq<Name>, reclassify: map<Name, Override>)
    returns (r: Result<(), PlanError>)
    ensures r.Ok? <==> OptionsValid(env, models, forwardOnly, reclassify)
    ensures r.Ok? ==> forall x | x in forwardOnly :: x in models && models[x].kind.TimeRange?
    ensures r.Ok? ==> forall x | x in reclassify :: x in models
    ensures r.Err? ==> match r.error
                       case InvalidEnvironment => !ValidEnvName(env)
                       case FlaggedUnknown(x) => x in forwardOnly && x !in models
                       case FlaggedKind(x) => x in forwardOnly && x in models && !models[x].kind.TimeRange?
                       case ReclassifyUnknown(x) => x in reclassify && x !in models
                       case _ => false
  {
    if !ValidEnvName(env) {
      return Err(InvalidEnvironment);
    }
    for i := 0 to |forwardOnly|
      invariant forall k | 0 <= k < i :: forwardOnly[k] in models && models[forwardOnly[k]].kind.TimeRange?
    {
      var flagged := forwardOnly[i];
      if flagged !in models {
        return Err(FlaggedUnknown(flagged));
      }
      if !models[flagged].kind.TimeRange? {
        return Err(FlaggedKind(flagged));
      }
    }
    var unknown := reclassify.Keys - models.Keys;
    DifferenceEmpty(reclassify.Keys, models.Keys);
    if unknown != {} {
      ghost var some := Any(unknown);
      assert some in unknown;
      var name :| name in unknown;
      return Err(ReclassifyUnknown(name));
    }
    r := Ok(());
  }

  method DecideModel(r: Request, changeOf: map<Name, Change>, reused: set<Name>, name: Name)
    returns (d: Result<Decision, PlanError>)
    requires name in r.models && name in r.versions
    ensures d == Decide(r, changeOf, reused, name)
  {
    var model := r.models[name];
    var fp, ast := r.versions[name].fp, r.versions[name].ast;
    var change := Added;
    var reclassifiedFrom: Option<Change> := None;
    var reusedFrom: Option<Fp> := None;
    var physFp := fp;
    var reuses := false;
    if name in r.current && r.current[name] == fp {
      change := Unchanged;
    } else if name in r.current {
      var known := r.current[name];
      var prev := SnapshotOf(r.store, name, known);
      if prev.Some? && prev.value.version > FINGERPRINT_VERSION {
        return Err(NewerFingerprint(name, prev.value.version));
      }
      var stale := prev.Some? && prev.value.version < FINGERPRINT_VERSION;
      var oldAst := if stale || prev.None? then None else prev.value.ast;
      if oldAst.None? || ast.None? {
        change := Breaking;
      } else if oldAst == ast {
        change := Indirect;
      } else {
        change := if CategorizeAstChange(oldAst.value, ast.value).IsNonBreaking? then NonBreaking else Breaking;
      }
      if name in r.reclassify && (change.Breaking? || change.NonBreaking?) {
        var stated := if r.reclassify[name].ToBreaking? then Breaking else NonBreaking;
        if stated != change {
          if stated.NonBreaking? && (oldAst.None? || ast.None?) {
            return Err(ReclassifyWithoutAst(name));
          }
          if stated.NonBreaking? && DropsColumns(oldAst.value, ast.value) {
            return Err(ReclassifyDropsColumns(name));
          }
          reclassifiedFrom := Some(change);
          change := stated;
        }
      }
      var parentsOnly := change.Indirect? && prev.Some? && ShiftedByParentsOnly(r, name, known);
      var cascaded := parentsOnly && model.kind.TimeRange? && Cascades(model, changeOf);
      if prev.Some? && !stale && (Flagged(r, name) || cascaded) {
        change := ForwardOnly;
        reusedFrom := Some(known);
        physFp := prev.value.physFp;
      }
      if change.Indirect? && parentsOnly && IndirectReuse(model, changeOf, reused) {
        reusedFrom := Some(known);
        physFp := prev.value.physFp;
        reuses := true;
      }
    }
    d := Ok(Decision(change, reclassifiedFrom, reusedFrom, physFp, reuses));
  }

  /**
   * The whole plan over a store that is only read. It fails exactly when an option is
   * invalid or some model cannot be decided; otherwise its actions are the loop's, then
   * one removal per environment row that is no longer in the project.
   */
  method PlanChanges(env: Env, models: map<Name, Model>, order: seq<Name>, versions: map<Name, Version>,
                     store: StateStore, now: int, forwardOnly: seq<Name>, reclassify: map<Name, Override>)
    returns (plan: Result<seq<Action>, PlanError>, hasChanges: bool)
    requires forall i | 0 <= i < |order| :: order[i] in models && order[i] in versions
    ensures var r := Request(models, order, versions, store.View(), CurrentOf(store.View(), env), now,
                             forwardOnly, reclassify);
            && (plan.Ok? <==> OptionsValid(env, models, forwardOnly, reclassify) && PlanUpTo(r, |order|).Ok?)
            && (plan.Ok? ==> plan.value == PlanOf(r))
    ensures plan.Ok? ==>
              (hasChanges <==>
                 (exists i :: 0 <= i < |plan.value|
                              && (plan.value[i].change != Unchanged || plan.value[i].backfill != []
                                  || plan.value[i].refresh)))
  {
    hide Decide, ActionFor, RemovedActions, OptionsValid, CurrentOf;
    hasChanges := false;
    var checked := CheckOptions(env, models, forwardOnly, reclassify);
    if checked.Err? {
      return Err(checked.error), false;
    }
    var current := CurrentOf(store.View(), env);
    var r := Request(models, order, versions, store.View(), current, now, forwardOnly, reclassify);
    var changeOf: map<Name, Change> := map[];
    var reused: set<Name> := {};
    var actions: seq<Action> := [];
    for i := 0 to |order|
      invariant PlanUpTo(r, i) == Ok(Acc(changeOf, reused, actions))
    {
      var name := order[i];
      var decided := DecideModel(r, changeOf, reused, name);
      if decided.Err? {
        PlanErrStays(r, i + 1, |order|);
        return Err(decided.error), false;
      }
      var d := decided.value;
      changeOf := changeOf[name := d.change];
      if d.reuses {
        reused := reused + {name};
      }
      actions := actions + [ActionFor(r, name, d)];
    }
    actions := actions + RemovedActions(r);
    plan := Ok(actions);
    hasChanges := AnyChange(actions);
  }

  method AnyChange(actions: seq<Action>) returns (some: bool)
    ensures some <==>
              (exists i :: 0 <= i < |actions|
                           && (actions[i].change != Unchanged || actions[i].backfill != [] || actions[i].refresh))
  {
    for i := 0 to |actions|
      invariant forall k | 0 <= k < i ::
                  actions[k].change == Unchanged && actions[k].backfill == [] && !actions[k].refresh
    {
      if !actions[i].change.Unchanged? || actions[i].backfill != [] || actions[i].refresh {
        return true;
      }
    }
    some := false;
  }

  lemma {:induction false} PlanErrStays(r: Request, j: nat, k: nat)
    requires Known(r) && j <= k <= |r.order| && PlanUpTo(r, j).Err?
    ensures PlanUpTo(r, k).Err?
    decreases k
  {
    hide Decide, Extend;
    if j < k { PlanErrStays(r, j, k - 1); }
  }

  ghost function PlanOf(r: Request): seq<Action>
    requires Known(r) && PlanUpTo(r, |r.order|).Ok?
  {
    PlanUpTo(r, |r.order|).value.actions + RemovedActions(r)
  }

  /** Removals: one, in name order, for every environment row whose model is gone, and for no other name. */
  lemma RemovalsExact(r: Request)
    ensures |RemovedActions(r)| == |r.current.Keys - r.models.Keys|
    ensures forall i | 0 <= i < |RemovedActions(r)| ::
              var a := RemovedActions(r)[i];
              && a.name in r.current && a.name !in r.models && a.fp == r.current[a.name] && a.change == Removed
              && a.backfill == [] && !a.build && !a.refresh
    ensures forall i, j | 0 <= i < j < |RemovedActions(r)| :: RemovedActions(r)[i].name < RemovedActions(r)[j].name
  {
    GoneExact(r);
    hide Gone;
  }

  lemma GoneExact(r: Request)
    ensures |Gone(r)| == |r.current.Keys - r.models.Keys|
    ensures forall i | 0 <= i < |Gone(r)| :: Gone(r)[i] in r.current && Gone(r)[i] !in r.models
    ensures Ascending(Gone(r))
  {
    var gone := r.current.Keys - r.models.Keys;
    var names := Sorted(gone);
    hide Sorted;
    forall i | 0 <= i < |names| ensures names[i] in gone {
      var x := names[i];
      assert x in names;
    }
  }
}
