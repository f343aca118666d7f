/** The migrator's guarantees over whole runs, for a fixed list of definitions with distinct IDs. */
module MigrationTheorems {
  import opened Options
  import opened Ordering
  import opened Schemas
  import opened Migrations
  import opened MigrationRuns

  // ----- the records, in every state of any run

  lemma SortAgain(defs: seq<Definition>)
    requires DistinctKeys(DefinitionId, defs)
    ensures var sorted := SortBy(DefinitionId, defs);
            && StrictlySorted(DefinitionId, sorted) && DistinctKeys(DefinitionId, sorted)
            && SortBy(DefinitionId, sorted) == sorted && |sorted| == |defs|
            && forall d :: d in sorted <==> d in defs
  {
    var sorted := SortBy(DefinitionId, defs);
    SortByStrict(DefinitionId, defs);
    SortBySorts(DefinitionId, defs);
    forall i, j | 0 <= i < j < |sorted| ensures DefinitionId(sorted[i]) != DefinitionId(sorted[j]) {
      StrIrreflexive(DefinitionId(sorted[i]));
    }
    SortByStrict(DefinitionId, sorted);
    StrictlySortedUnique(DefinitionId, SortBy(DefinitionId, sorted), sorted);
  }

  /** The invariant of the records: they are the first ones of the sorted list, in the order of their times. */
  ghost predicate Ordered(s: State, sorted: seq<Definition>, clock: int) {
    && DistinctKeys(DefinitionId, s.defs) && SortBy(DefinitionId, s.defs) == sorted
    && RecordsMatch(sorted, s.db, |s.db.records|)
    && LastBefore(s.db, clock + 1)
  }

  lemma TickingEnd(env: nat -> Attempt, n: nat, t: int, m: nat)
    requires Ticking(env, n, t) && m < n
    ensures t < env(m).now <= env(n - 1).now
  {
    if m > 0 { assert env(0).now < env(m).now; }
    if m < n - 1 { assert env(m).now < env(n - 1).now; }
  }

  lemma AllAttemptsLater(db: Db, clock: int, env: nat -> Attempt, n: nat)
    requires LastBefore(db, clock + 1) && Ticking(env, n, clock)
    ensures forall j :: 0 <= j < n ==> LastBefore(db, env(j).now)
  {
    forall j | 0 <= j < n ensures LastBefore(db, env(j).now) {
      TickingEnd(env, n, clock, j);
    }
  }

  lemma ResumedInTime(sorted: seq<Definition>, db: Db, clock: int, env: nat -> Attempt, after: Db, ok: bool)
    requires Resumed(sorted, db, env, after, ok)
    requires LastBefore(db, clock + 1) && Ticking(env, |sorted|, clock)
    ensures LastBefore(after, (if |sorted| > 0 then env(|sorted| - 1).now else clock) + 1)
  {
    var m := |after.records|;
    if 0 < m { TickingEnd(env, |sorted|, clock, m - 1); }
    if m == |db.records| { assert after.records == db.records; }
  }

  lemma UpFrom(sorted: seq<Definition>, start: Schema, db: Db, clock: int, env: nat -> Attempt)
    requires StrictlySorted(DefinitionId, sorted) && RecordsMatch(sorted, db, |db.records|)
    requires LastBefore(db, clock + 1) && Ticking(env, |sorted|, clock)
    ensures var (after, ok) := ApplyFrom(db, sorted, Ids(db.records), env, 0);
            && Resumed(sorted, db, env, after, ok)
            && (Stacked(sorted, start, db, |db.records|) ==> Stacked(sorted, start, after, |after.records|))
            && LastBefore(after, (if |sorted| > 0 then env(|sorted| - 1).now else clock) + 1)
  {
    AllAttemptsLater(db, clock, env, |sorted|);
    UpResumes(sorted, start, db, |db.records|, env);
    var (after, ok) := ApplyFrom(db, sorted, Ids(db.records), env, 0);
    ResumedInTime(sorted, db, clock, env, after, ok);
  }

  lemma UpOf(s: State, p: Prologue, env: nat -> Attempt)
    ensures var sorted := SortBy(DefinitionId, s.defs);
            var (db, ok) := ApplyFrom(s.db, sorted, Ids(s.db.records), env, 0);
            Step(s, DoUp(p, env)) == if p == Ready then (State(db, sorted), ok) else (s, false)
  {
  }

  /** Up keeps the records in order; if the schema was explained, it still is. */
  lemma UpKeeps(s: State, sorted: seq<Definition>, start: Schema, clock: int, p: Prologue, env: nat -> Attempt)
    requires Ordered(s, sorted, clock) && Ticking(env, |sorted|, clock)
    ensures var (after, ok) := Step(s, DoUp(p, env)); var later := ClockAfter(DoUp(p, env), |sorted|, clock);
            && Ordered(after, sorted, later) && (p == Ready ==> Resumed(sorted, s.db, env, after.db, ok))
            && (ok ==> |after.db.records| == |sorted|)
            && (Explained(s, sorted, start, clock) ==> Explained(after, sorted, start, later))
  {
    SortAgain(s.defs);
    UpOf(s, p, env);
    if p == Ready {
      UpFrom(sorted, start, s.db, clock, env);
    } else if |sorted| > 0 {
      TickingEnd(env, |sorted|, clock, 0);
    }
  }

  lemma PoppedInTime(sorted: seq<Definition>, db: Db, s: Schema, clock: int)
    requires RecordsMatch(sorted, db, |db.records|) && |db.records| > 0 && LastBefore(db, clock)
    ensures var after := Db(s, db.records[..|db.records| - 1]);
            RecordsMatch(sorted, after, |after.records|) && LastBefore(after, clock)
  {
    var k := |db.records|;
    if k > 1 { assert db.records[k - 2].appliedAt < db.records[k - 1].appliedAt; }
  }

  /** Down keeps the records in order, whatever the Down script does to the schema. */
  lemma DownKeepsOrder(s: State, sorted: seq<Definition>, clock: int, p: Prologue, f: Fault)
    requires Ordered(s, sorted, clock)
    ensures Ordered(Step(s, DoDown(p, f)).0, sorted, clock)
  {
    SortAgain(s.defs);
    var k := |s.db.records|;
    if p == Ready && k > 0 {
      DownRunsLast(sorted, s.defs, s.db, k, f);
      if Run(sorted[k - 1].down, s.db.schema).Some? {
        PoppedInTime(sorted, s.db, Run(sorted[k - 1].down, s.db.schema).value, clock + 1);
      }
    }
  }

  lemma {:induction false} DropAllRecords(db: Db, listed: seq<string>, failAt: nat)
    ensures DropAll(db, listed, failAt).0.records == [] || DropAll(db, listed, failAt).0.records == db.records
    ensures DropAll(db, listed, failAt).1 <==> |listed| <= failAt
    decreases |listed|
  {
    if listed != [] && failAt > 0 { DropAllRecords(DropOne(db, listed[0]), listed[1..], failAt - 1); }
  }

  /** Reset keeps the records in order, whatever its query lists and wherever it fails. */
  lemma ResetKeepsOrder(s: State, sorted: seq<Definition>, clock: int, a: Action)
    requires Ordered(s, sorted, clock) && a.DoReset?
    requires Attempts(a).Some? ==> Ticking(Attempts(a).value, |sorted|, clock)
    ensures Ordered(Step(s, a).0, sorted, ClockAfter(a, |sorted|, clock))
    ensures Step(s, a).1 ==> |Step(s, a).0.db.records| == |sorted|
  {
    DropAllRecords(s.db, a.listed, a.failAt);
    var dropped := s.(db := DropAll(s.db, a.listed, a.failAt).0);
    assert Ordered(dropped, sorted, clock);
    if a.failAt >= |a.listed| {
      UpKeeps(dropped, sorted, dropped.db.schema, clock, a.resetPrologue, a.resetEnv);
    }
  }

  /**
   After any run of Ups, Downs and Resets, each failing wherever it may, on any schema and with any scripts:
   the recorded migrations are a prefix of the sorted list, with times that increase in that order.
   */
  lemma {:induction false} RunsOrdered(s: State, sorted: seq<Definition>, run: seq<Action>, t: int)
    requires Ordered(s, sorted, t) && Clocked(run, |sorted|, t)
    ensures Ordered(Play(s, run), sorted, ClockAtEnd(run, |sorted|, t))
  {
    if run != [] {
      var before, a := run[..|run| - 1], run[|run| - 1];
      RunsOrdered(s, sorted, before, t);
      var now, clock := Play(s, before), ClockAtEnd(before, |sorted|, t);
      match a
      case DoUp(p, env) => UpKeeps(now, sorted, now.db.schema, clock, p, env);
      case DoDown(p, f) => DownKeepsOrder(now, sorted, clock, p, f);
      case DoReset(_, _, _, _) => ResetKeepsOrder(now, sorted, clock, a);
    }
  }

  // ----- the schema, where it is explained by the records

  /** The records are in order, and the schema is the starting one with the Ups of the recorded definitions. */
  ghost predicate Explained(s: State, sorted: seq<Definition>, start: Schema, clock: int) {
    Ordered(s, sorted, clock) && FoldUps(sorted[..|s.db.records|], start) == Some(s.db.schema)
  }

  lemma DownKeeps(s: State, sorted: seq<Definition>, start: Schema, clock: int, p: Prologue, f: Fault)
    requires Explained(s, sorted, start, clock) && DownsUndoUps(sorted, start)
    ensures Explained(Step(s, DoDown(p, f)).0, sorted, start, clock)
  {
    SortAgain(s.defs);
    DownKeepsOrder(s, sorted, clock, p, f);
    DownPops(sorted, s.defs, start, s.db, |s.db.records|, p, f);
  }

  /** What is left of a schema when a Reset has dropped everything it lists: the tables of the reserved form. */
  function Survivors(s: Schema): Schema {
    Without(s, set n | n in s.tables + {RECORD_TABLE} && !KeptByReset(n))
  }

  predicate Rebuilds(a: Action) {
    a.DoReset? && a.failAt >= |a.listed|
  }

  /** The schema the recorded migrations stand on: the starting one, or what survived the last complete Reset. */
  function Ground(s: State, run: seq<Action>): Schema {
    if run == [] then s.db.schema
    else
      var before, a := run[..|run| - 1], run[|run| - 1];
      if Rebuilds(a) then Survivors(Play(s, before).db.schema) else Ground(s, before)
  }

  /**
   What the records need to explain the schema throughout a run: where a Down runs, the Downs undo the Ups,
   and a Reset drops all the tables its query lists.
   */
  ghost predicate Sound(s: State, sorted: seq<Definition>, run: seq<Action>) {
    run == [] ||
    (var before, a := run[..|run| - 1], run[|run| - 1];
     && Sound(s, sorted, before)
     && (a.DoDown? ==> DownsUndoUps(sorted, Ground(s, before)))
     && (a.DoReset? ==> Rebuilds(a) && Listing(Play(s, before).db, a.listed)))
  }

  /** Runs of Ups only need nothing; with Downs it is enough that these undo the Ups on the starting schema. */
  lemma {:induction false} UpsAndDownsSound(s: State, sorted: seq<Definition>, run: seq<Action>)
    requires forall i :: 0 <= i < |run| ==>
      run[i].DoUp? || (run[i].DoDown? && DownsUndoUps(sorted, s.db.schema))
    ensures Sound(s, sorted, run) && Ground(s, run) == s.db.schema
  {
    if run != [] { UpsAndDownsSound(s, sorted, run[..|run| - 1]); }
  }

  lemma {:induction false} DropAllDrops(db: Db, listed: seq<string>, failAt: nat)
    ensures DropAll(db, listed, failAt).1 <==> |listed| <= failAt
    ensures |listed| <= failAt ==>
              DropAll(db, listed, failAt).0
              == Db(Without(db.schema, set t | t in listed), if RECORD_TABLE in listed then [] else db.records)
    decreases |listed|
  {
    if listed == [] {
      assert Without(db.schema, {}) == db.schema;
    } else if failAt > 0 {
      var next := DropOne(db, listed[0]);
      DropAllDrops(next, listed[1..], failAt - 1);
      var rest, all := set t | t in listed[1..], set t | t in listed;
      assert all == rest + {listed[0]};
      assert Without(next.schema, rest) == Without(db.schema, all);
    }
  }

  /** Complete drops leave exactly the survivors and no record. */
  lemma DropsLeaveSurvivors(db: Db, listed: seq<string>, failAt: nat)
    requires Listing(db, listed) && |listed| <= failAt
    ensures DropAll(db, listed, failAt) == (Db(Survivors(db.schema), []), true)
  {
    DropAllDrops(db, listed, failAt);
    assert !KeptByReset(RECORD_TABLE);
    assert (set t | t in listed) == set n | n in db.schema.tables + {RECORD_TABLE} && !KeptByReset(n);
  }

  lemma ResetKeeps(s: State, sorted: seq<Definition>, ground: Schema, clock: int, a: Action)
    requires Explained(s, sorted, ground, clock)
    requires Rebuilds(a) && Listing(s.db, a.listed) && Ticking(a.resetEnv, |sorted|, clock)
    ensures Explained(Step(s, a).0, sorted, Survivors(s.db.schema), ClockAfter(a, |sorted|, clock))
  {
    DropsLeaveSurvivors(s.db, a.listed, a.failAt);
    var left := s.(db := Db(Survivors(s.db.schema), []));
    assert Explained(left, sorted, left.db.schema, clock);
    UpKeeps(left, sorted, left.db.schema, clock, a.resetPrologue, a.resetEnv);
  }

  /**
   After any run of Ups, Downs and complete Resets, Ups and Downs failing wherever they may: the records are
   in order, and the schema is the ground with the Ups of the recorded migrations folded over it.
   */
  lemma {:induction false} RunsExplained(s: State, sorted: seq<Definition>, run: seq<Action>, t: int)
    requires Ordered(s, sorted, t) && s.db.records == []
    requires Clocked(run, |sorted|, t) && Sound(s, sorted, run)
    ensures Explained(Play(s, run), sorted, Ground(s, run), ClockAtEnd(run, |sorted|, t))
  {
    if run != [] {
      var before, a := run[..|run| - 1], run[|run| - 1];
      RunsExplained(s, sorted, before, t);
      var now, ground, clock := Play(s, before), Ground(s, before), ClockAtEnd(before, |sorted|, t);
      match a
      case DoUp(p, env) => UpKeeps(now, sorted, ground, clock, p, env);
      case DoDown(p, f) => DownKeeps(now, sorted, ground, clock, p, f);
      case DoReset(_, _, _, _) => ResetKeeps(now, sorted, ground, clock, a);
    }
  }

  // ----- runs that end in a successful Up

  /** The last action of the run is an Up, or a Reset, that returned no error. */
  ghost predicate EndsInUp(s: State, run: seq<Action>) {
    run != [] && !run[|run| - 1].DoDown? && Step(Play(s, run[..|run| - 1]), run[|run| - 1]).1
  }

  /**
   An Up that returns no error, after any run, leaves every definition recorded; and the whole fold in the
   schema, where the records explain it.
   */
  lemma SuccessfulUpCompletes(s: State, sorted: seq<Definition>, run: seq<Action>, t: int)
    requires Ordered(s, sorted, t) && Clocked(run, |sorted|, t) && EndsInUp(s, run)
    ensures var db := Play(s, run).db;
            && |db.records| == |sorted| && (forall i :: 0 <= i < |sorted| ==> db.records[i].id == sorted[i].id)
            && (s.db.records == [] && Sound(s, sorted, run) ==> FoldUps(sorted, Ground(s, run)) == Some(db.schema))
  {
    var before, a := run[..|run| - 1], run[|run| - 1];
    RunsOrdered(s, sorted, before, t);
    RunsOrdered(s, sorted, run, t);
    var now, clock := Play(s, before), ClockAtEnd(before, |sorted|, t);
    match a {
      case DoUp(p, env) => UpKeeps(now, sorted, now.db.schema, clock, p, env);
      case DoReset(_, _, _, _) => ResetKeepsOrder(now, sorted, clock, a);
    }
    if s.db.records == [] && Sound(s, sorted, run) {
      RunsExplained(s, sorted, run, t);
      assert sorted[..|sorted|] == sorted;
    }
  }

  /** Failures on the way leave no trace: runs on one ground that end in a successful Up end in the same place. */
  lemma ResumedUpsAgree(s: State, sorted: seq<Definition>, run: seq<Action>, other: seq<Action>, t: int, u: int)
    requires Ordered(s, sorted, t) && Clocked(run, |sorted|, t) && EndsInUp(s, run)
    requires Ordered(s, sorted, u) && Clocked(other, |sorted|, u) && EndsInUp(s, other)
    ensures var a, b := Play(s, run).db, Play(s, other).db;
            && |a.records| == |b.records| && (forall i :: 0 <= i < |a.records| ==> a.records[i].id == b.records[i].id)
            && (s.db.records == [] && Sound(s, sorted, run) && Sound(s, sorted, other) ==>
                  (Ground(s, run) == Ground(s, other) ==> a.schema == b.schema))
  {
    SuccessfulUpCompletes(s, sorted, run, t);
    SuccessfulUpCompletes(s, sorted, other, u);
  }

  lemma {:induction false} FoldPrefix(defs: seq<Definition>, start: Schema, k: nat)
    requires FoldUps(defs, start).Some? && k <= |defs|
    ensures FoldUps(defs[..k], start).Some?
    decreases |defs|
  {
    if k < |defs| {
      var init := defs[..|defs| - 1];
      FoldPrefix(init, start, k);
      assert init[..k] == defs[..k];
    } else {
      assert defs[..k] == defs;
    }
  }

  lemma NextRuns(defs: seq<Definition>, start: Schema, k: nat)
    requires k < |defs| && FoldUps(defs, start).Some?
    ensures FoldUps(defs[..k], start).Some? && Run(defs[k].up, FoldUps(defs[..k], start).value).Some?
  {
    FoldOneMore(defs, start, k);
    FoldPrefix(defs, start, k + 1);
  }

  /** With no failing call, the next transaction commits if the whole fold exists. */
  lemma NextApplies(sorted: seq<Definition>, start: Schema, db: Db, a: Attempt)
    requires StrictlySorted(DefinitionId, sorted) && Stacked(sorted, start, db, |db.records|)
    requires |db.records| < |sorted| && FoldUps(sorted, start).Some?
    requires a.fault == NoFault
    ensures Apply(db, sorted[|db.records|], a).Some?
  {
    ApplySucceedsIff(sorted, db, |db.records|, a);
    NextRuns(sorted, start, |db.records|);
  }

  /** So an Up from the beginning succeeds. */
  lemma OneUpSucceeds(s: State, sorted: seq<Definition>, clock: int, env: nat -> Attempt)
    requires Ordered(s, sorted, clock) && s.db.records == [] && FoldUps(sorted, s.db.schema).Some?
    requires Ticking(env, |sorted|, clock) && forall j :: env(j).fault == NoFault
    ensures Step(s, DoUp(Ready, env)).1
  {
    SortAgain(s.defs);
    UpKeeps(s, sorted, s.db.schema, clock, Ready, env);
    var after := Step(s, DoUp(Ready, env)).0.db;
    var m := |after.records|;
    if m < |sorted| { NextApplies(sorted, s.db.schema, after, env(m)); }
  }

  /**
   Any number of Ups that fail half way, with one that succeeds at the end, come to the same as a single Up
   in which nothing fails: that one succeeds too, with the same schema and the same recorded migrations.
   */
  lemma PartialUpsEqualOneUp(s: State, sorted: seq<Definition>, run: seq<Action>, t: int, env: nat -> Attempt)
    requires Ordered(s, sorted, t) && s.db.records == []
    requires Clocked(run, |sorted|, t) && EndsInUp(s, run) && forall i :: 0 <= i < |run| ==> run[i].DoUp?
    requires Ticking(env, |sorted|, t) && forall j :: env(j).fault == NoFault
    ensures var (one, ok) := Step(s, DoUp(Ready, env));
            var many := Play(s, run);
            && ok && one.db.schema == many.db.schema && |one.db.records| == |many.db.records|
            && forall i :: 0 <= i < |one.db.records| ==> one.db.records[i].id == many.db.records[i].id
  {
    UpsAndDownsSound(s, sorted, run);
    SuccessfulUpCompletes(s, sorted, run, t);
    OneUpSucceeds(s, sorted, t, env);
    UpKeeps(s, sorted, s.db.schema, t, Ready, env);
    assert sorted[..|sorted|] == sorted;
  }

  /** Once everything is recorded, a further Up succeeds and changes nothing, whatever the schema is. */
  lemma UpIdempotent(s: State, sorted: seq<Definition>, clock: int, env: nat -> Attempt)
    requires Ordered(s, sorted, clock) && |s.db.records| == |sorted|
    requires Ticking(env, |sorted|, clock)
    ensures Up(s.db, s.defs, Ready, env) == (s.db, true)
  {
    UpKeeps(s, sorted, s.db.schema, clock, Ready, env);
  }

  // ----- rolling everything back

  function Downs(s: State, n: nat): State
    decreases n
  {
    if n == 0 then s else Downs(Step(s, DoDown(Ready, NoFault)).0, n - 1)
  }

  /** As many Downs as there are records give back the starting schema and an empty record table. */
  lemma {:induction false} DownsRestoreStart(s: State, sorted: seq<Definition>, start: Schema, clock: int)
    requires Explained(s, sorted, start, clock) && DownsUndoUps(sorted, start)
    ensures Downs(s, |s.db.records|).db == Db(start, [])
    decreases |s.db.records|
  {
    var k := |s.db.records|;
    if k > 0 {
      SortAgain(s.defs);
      DownPops(sorted, s.defs, start, s.db, k, Ready, NoFault);
      DownKeeps(s, sorted, start, clock, Ready, NoFault);
      DownsRestoreStart(Step(s, DoDown(Ready, NoFault)).0, sorted, start, clock);
    }
  }

  // ----- Reset

  /**
   A Reset whose drops all succeed starts Up over from an empty database exactly when no table name has
   SQLite's reserved form; such a table survives the drops.
   */
  lemma ResetStartsOver(db: Db, defs: seq<Definition>, listed: seq<string>, failAt: nat, p: Prologue,
                        env: nat -> Attempt)
    requires WellFormed(db.schema) && Listing(db, listed) && |listed| <= failAt
    ensures DropAll(db, listed, failAt).0 == Db(EMPTY, []) <==> forall t :: t in db.schema.tables ==> !KeptByReset(t)
    ensures (forall t :: t in db.schema.tables ==> !KeptByReset(t)) ==>
              Reset(db, defs, listed, failAt, p, env) == Up(Db(EMPTY, []), defs, p, env)
  {
    DropsLeaveSurvivors(db, listed, failAt);
    var after := DropAll(db, listed, failAt).0;
    if forall t :: t in db.schema.tables ==> !KeptByReset(t) {
      assert after.schema.tables == {};
      assert after.schema.indexes == map[];
    } else {
      var t :| t in db.schema.tables && KeptByReset(t);
      assert t in after.schema.tables;
    }
  }

  lemma {:induction false} DropAllPrefix(db: Db, listed: seq<string>, failAt: nat)
    requires failAt < |listed|
    ensures DropAll(db, listed, failAt) == (DropAll(db, listed[..failAt], failAt).0, false)
    decreases |listed|
  {
    if failAt > 0 {
      DropAllPrefix(DropOne(db, listed[0]), listed[1..], failAt - 1);
      assert listed[1..][..failAt - 1] == listed[..failAt][1..];
    }
  }
}
