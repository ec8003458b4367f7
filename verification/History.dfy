/**
 * What the store guarantees over whole histories (src/state/sqlite.ts, src/plan/janitor.ts):
 * orphan marks never lie, and the janitor's time to live is a statement about the past.
 */
module History {
  import opened Common
  import opened Models
  import opened Fingerprints
  import opened Store

  datatype Event =
    | Upsert(row: NewSnapshot)
    | Promote(env: Env, entries: seq<Entry>)
    | Claim(name: Name, fp: Fp, deadline: int)

  datatype Timed = Timed(at: int, event: Event)

  type History = seq<Timed>

  ghost function Apply(s: State, t: Timed): State {
    match t.event
    case Upsert(row) => Upserted(s, row, t.at)
    case Promote(env, entries) => Promoted(s, env, entries, t.at)
    case Claim(name, fp, deadline) => Claimed(s, name, fp, deadline)
  }

  /** The store after the first `k` events; it is in force until event `k` happens. */
  ghost function After(h: History, k: nat): State
    requires k <= |h|
  {
    if k == 0 then EMPTY else Apply(After(h, k - 1), h[k - 1])
  }

  ghost predicate ClockMonotone(h: History) {
    forall i, j | 0 <= i < j < |h| :: h[i].at <= h[j].at
  }

  // ----- orphan marks -----

  /** A marked snapshot is referenced by no environment. */
  ghost predicate MarksHonest(s: State) {
    forall k | k in s.snapshots && s.snapshots[k].orphanedAt.Some? :: !Referenced(s, k.fp)
  }

  lemma MarksHonestStep(s: State, t: Timed)
    requires MarksHonest(s)
    ensures MarksHonest(Apply(s, t))
  {
  }

  lemma {:induction false} MarksAlwaysHonest(h: History, k: nat)
    requires k <= |h|
    ensures MarksHonest(After(h, k))
  {
    if k > 0 {
      MarksAlwaysHonest(h, k - 1);
      MarksHonestStep(After(h, k - 1), h[k - 1]);
    }
  }

  /**
   * A promotion marks exactly the snapshots left without a reference, now unless they were
   * marked already, clears exactly the others, and changes nothing else about any.
   */
  lemma PromotionMarks(s: State, env: Env, entries: seq<Entry>, now: int, key: SnapKey)
    requires Promotable(s, entries) && key in s.snapshots
    ensures var t := Promoted(s, env, entries, now);
            && t.snapshots.Keys == s.snapshots.Keys && t.ledger == s.ledger && t.locks == s.locks
            && t.snapshots[key] == s.snapshots[key].(orphanedAt := t.snapshots[key].orphanedAt)
            && (t.snapshots[key].orphanedAt.Some? <==> forall k | k in t.envs :: t.envs[k] != key.fp)
            && (t.snapshots[key].orphanedAt.Some? ==>
                  t.snapshots[key].orphanedAt
                  == if s.snapshots[key].orphanedAt.Some? then s.snapshots[key].orphanedAt else Some(now))
  {
    var t := Promoted(s, env, entries, now);
    assert Referenced(t, key.fp) <==> exists k :: k in t.envs && t.envs[k] == key.fp;
  }

  // ----- the time to live -----

  /** Every reference to the snapshot's fingerprint that has ended, ended by the row's age mark. */
  ghost predicate MarkAfterReferences(h: History, k: nat, key: SnapKey)
    requires k <= |h|
  {
    var s := After(h, k);
    key in s.snapshots && !Referenced(s, key.fp) ==>
      forall j | 0 <= j < k && Referenced(After(h, j), key.fp) :: h[j].at <= Mark(s.snapshots[key])
  }

  /** One event: either the age mark moved to now, or it and the references stayed. */
  lemma AgeMarkStep(s: State, t: Timed, key: SnapKey)
    requires MarksHonest(s) && key in Apply(s, t).snapshots && !Referenced(Apply(s, t), key.fp)
    ensures || Mark(Apply(s, t).snapshots[key]) == t.at
            || (&& key in s.snapshots && !Referenced(s, key.fp)
                && Mark(s.snapshots[key]) == Mark(Apply(s, t).snapshots[key]))
  {
  }

  lemma {:induction false} MarksFollowReferences(h: History, k: nat, key: SnapKey)
    requires k <= |h| && ClockMonotone(h)
    ensures MarkAfterReferences(h, k, key)
  {
    if k > 0 {
      var s, t := After(h, k - 1), After(h, k);
      MarksFollowReferences(h, k - 1, key);
      MarksAlwaysHonest(h, k - 1);
      if key in t.snapshots && !Referenced(t, key.fp) {
        AgeMarkStep(s, h[k - 1], key);
        forall j | 0 <= j < k && Referenced(After(h, j), key.fp) ensures h[j].at <= Mark(t.snapshots[key]) {
        }
      }
    }
  }

  /**
   * The ttl: when a claim with deadline `d` succeeds, the fingerprint is unreferenced, and
   * every earlier state in which some environment referenced it was over by time `d`.
   */
  lemma ClaimRespectsTtl(h: History, k: nat)
    requires k < |h| && ClockMonotone(h) && h[k].event.Claim?
    requires Doomed(After(h, k), SnapKey(h[k].event.name, h[k].event.fp), h[k].event.deadline)
    ensures !Referenced(After(h, k), h[k].event.fp)
    ensures forall j | 0 <= j <= k && Referenced(After(h, j), h[k].event.fp) ::
              j < k && h[j].at <= h[k].event.deadline
  {
    hide After;
    MarksFollowReferences(h, k, SnapKey(h[k].event.name, h[k].event.fp));
  }

  /** A snapshot upserted after the deadline is never claimed, referenced or not. */
  lemma RevivalWins(h: History, j: nat, k: nat)
    requires j < k < |h| && ClockMonotone(h) && h[j].event.Upsert? && h[k].event.Claim?
    requires h[k].event.name == h[j].event.row.name && h[k].event.fp == h[j].event.row.fp
    requires h[j].at > h[k].event.deadline
    ensures !Doomed(After(h, k), SnapKey(h[k].event.name, h[k].event.fp), h[k].event.deadline)
  {
    hide After;
    YoungRow(h, j, k, SnapKey(h[k].event.name, h[k].event.fp));
  }

  ghost predicate NoOlderThan(row: Snapshot, t: int) {
    row.createdAt >= t && (row.orphanedAt.Some? ==> row.orphanedAt.value >= t)
  }

  lemma {:induction false} YoungRow(h: History, j: nat, k: nat, key: SnapKey)
    requires j < k <= |h| && ClockMonotone(h) && h[j].event.Upsert?
    requires key == SnapKey(h[j].event.row.name, h[j].event.row.fp)
    ensures key in After(h, k).snapshots ==> NoOlderThan(After(h, k).snapshots[key], h[j].at)
    decreases k
  {
    if k > j + 1 {
      YoungRow(h, j, k - 1, key);
      assert h[j].at <= h[k - 1].at;
    }
  }
}
